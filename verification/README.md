# message.ly: access and authentication decisions, in Dafny

message.ly is a two-party direct-messaging backend (Express and PostgreSQL).
Users register and log in with a password. Login returns a signed JWT.
Users send messages to one another. A message can be viewed only by its
sender or recipient, and marked read only by its recipient.

This project models the decision logic of that service as a state machine
over an abstract database: `users: map<string, User>`,
`messages: map<nat, Message>` and the next value of the message-id sequence.
Each route handler, and each `User` method that writes, is a pure function
from the database, the actor, the request and a `nat` clock to an `Outcome`
together with the database it leaves behind. An `Outcome` is a value or an
error carrying the status and message the code throws. The `User` methods
that only read return just their result: `Authenticate` an `Outcome`, `Get`
an `Option`, `All` a set of profiles. The four message listings (two `User`
methods, two routes) are methods with a loop over the message ids, returning
a sequence of rows whose order is left open.

Modules follow the source files:

- `Wrappers`: `Option`, used for NULL columns and absent request fields.
- `Errors`: the HTTP errors, one constant per `ExpressError` in the code.
- `Credentials`: bcrypt and jsonwebtoken, reduced to their contracts.
- `Db`: the rows, the validity invariant of the database, and the join
  query behind every message listing.
- `UserModel`: models/user.js.
- `AuthRoutes`: routes/auth.js.
- `MessagesRoutes`: routes/messages.js, including the access guard
  (`CanView`, `CanMarkRead`).
- `UsersRoutes`: routes/users.js.
- `Service`: every handler that is a function, dispatched from one `Apply`. It also holds
  the invariants kept over any sequence of requests, and an end-to-end
  conversation.

The schema file is not part of this model. The model assumes:

- usernames are unique;
- a message's sender and recipient must be registered users (NOT NULL foreign keys, so an absent recipient is refused too);
- message ids come from a serial sequence starting at 1;
- every other column accepts what the code writes, NULL included.

The route `POST /register` inserts only a username and a hash, and it relies
on that last assumption.

Where the code and its doc comments disagree, the model follows the code:

- `POST /login` never updates `last_login_at`, although its comment asks for
  it (routes/auth.js:11). `AuthRoutes.Login` proves that the database is
  unchanged.
- `POST /register` returns `{username}`, not a token (routes/auth.js:43, 61).
- `User.register` is documented to return the password as well
  (models/user.js:11-13), but its RETURNING clause lists only the public
  columns (models/user.js:22), and so does `UserModel.Register`.

Other behaviours of the code worth knowing, which no comment addresses:

- Missing credentials are answered with 404 rather than the usual 400
  (routes/auth.js:18, 52).
- Marking a message read overwrites `read_at` every time; it is not an
  idempotent no-op (`MessagesRoutes.MarkReadTwice`).
- Database errors the handlers do not translate reach the transport's
  default handler as status 500: the constraint errors of `POST /`, and an
  id beyond PostgreSQL's `integer` range in `GET /:id` and
  `POST /:id/read`.

models/user.js is modelled as its doc comments and queries intend: see
"## Findings" for the code as written.

## Model

| member | source | states |
|---|---|---|
| Credentials.Key | routes/auth.js:28 | the part of a password bcrypt reads: at most 72 bytes, a prefix of the password, the whole password when it is no longer than that |
| Credentials.Compare | models/user.js:46 | `bcrypt.compare`: an accepted password starts with the stored key; a password of at most 72 bytes is accepted exactly when it is the key, a longer one exactly when its first 72 bytes are |
| Credentials.Hash | routes/auth.js:55 | bcrypt's contract: the hash keeps the salt drawn for it, and the comparison accepts a password exactly when it agrees with the hashed one on the first 72 bytes |
| Credentials.ShortPasswordsExact | routes/auth.js:28 | among passwords of at most 72 bytes, a hash accepts the hashed password and no other |
| Credentials.LongPasswordsCollide | routes/auth.js:28 | two passwords sharing a 72-byte prefix are accepted for each other, whatever follows it |
| Credentials.Sign | routes/auth.js:29 | `jwt.sign`: the token carries the given claims, verifies to them under the signing secret, and fails to verify under any other secret |
| Credentials.Verify | routes/auth.js:29 | the verifying side of the token signed here (the middleware that calls `jwt.verify` is not part of this model): a token verifies only to its own claims, and only if it was signed over exactly those claims with this secret |
| Credentials.SignVerify | routes/auth.js:29 | a token signed over some claims verifies to those claims under the signing secret; it fails under any other secret or after the claims are altered |
| Db.Correspondence | models/user.js:120-133 | the message-join query returns every message whose owner matches and whose counterpart user exists. Each appears exactly once, with the stored fields and the counterpart's profile; row order is left open |
| UserModel.Register | models/user.js:15-30 | fails with 400 "Could not register user" exactly when the username or password is absent or the username is taken, and then writes nothing. Otherwise it adds exactly one row: the username, a hash accepting the password, the first name, last name and phone from the arguments, and join and last-login time both `now`. It returns that row's public columns and leaves every other row alone |
| UserModel.Authenticate | models/user.js:34-54 | true exactly when the user exists and bcrypt accepts the password. An unknown or absent username gives false, never an error. It errors with 400 only when the user exists and the password is absent |
| UserModel.RegisterThenAuthenticate | models/user.js:15-54 | after a successful register, authenticate accepts exactly the passwords that agree with the registered one on the first 72 bytes: the registered password itself and, when the registered password is itself at most 72 bytes, no other password of at most 72 bytes |
| UserModel.UpdateLoginTimestamp | models/user.js:56-69 | the intended update: only the named user's `last_login_at` becomes `now`. Other users, messages and the sequence are unchanged, and an unknown name changes nothing |
| UserModel.UpdateLoginTimestampAsWritten | models/user.js:58-69 | the method with the statement it actually sends fails with 400 "Could not update login timestamp" and writes nothing, for every database, username and time |
| UserModel.UpdateLoginTimestampAsWrittenFails | models/user.js:60-63 | the statement as sent fails PostgreSQL's `UPDATE table [alias] SET` shape and the intended one matches it. So for a registered user the code as written returns 400 and leaves `last_login_at`, while the intended method sets it to `now` |
| UserModel.UnboundNamesFailEveryMethod | models/user.js:3-191 | with only `ExpressError` in scope, each of the seven methods fails with its catch error (400 or 404), whatever its input. With bcrypt, db and the work factor imported, each runs its body |
| UserModel.RegisterAsWrittenFails | models/user.js:15-29 | as written, registering a fresh user fails with 400 where the intended method succeeds |
| UserModel.All | models/user.js:74-84 | the profile of every user is returned, and every returned profile belongs to a stored user; the result type has no password |
| UserModel.Get | models/user.js:95-108 | a user's detail (profile, join and last-login time) exactly when the user exists, otherwise nothing rather than an error |
| UserModel.MessagesFrom | models/user.js:118-150 | exactly the messages sent by the user whose recipient exists, each once, each tagged with the recipient's profile |
| UserModel.MessagesTo | models/user.js:160-192 | exactly the messages addressed to the user whose sender exists, each once, each tagged with the sender's profile |
| AuthRoutes.Login | routes/auth.js:14-38 | fails with 404 when either field is absent or empty, before any lookup. With both present it succeeds exactly when the user exists and bcrypt accepts the password, and every other failure is the same 400. On success the token verifies to `{username}` issued at `now`. The database is never changed |
| AuthRoutes.LoginFailureIndistinguishable | routes/auth.js:26-33 | an unknown username and a wrong password produce the identical error |
| AuthRoutes.Register | routes/auth.js:48-68 | an absent or empty field gives 404 and a taken username gives 400 "Username taken"; both leave the database unchanged. Otherwise it adds exactly one row: the username and a hash accepting the password, with NULL first name, last name, phone and timestamps. It replies `{username}` only and leaves every existing row alone |
| AuthRoutes.RegisterThenLogin | routes/auth.js:26-61 | after a successful registration, logging in with the same body succeeds with a token for that user |
| AuthRoutes.RegisterTwice | routes/auth.js:56-65 | registering a taken name fails with 400 and changes nothing; the first password still logs in, and the second logs in exactly when it agrees with the first on the first 72 bytes |
| MessagesRoutes.GetMessage | routes/messages.js:20-49 | an id beyond 2147483647 is the database's untranslated error, 500. Otherwise a message the joins do not find is 404 whoever asks. Otherwise an actor who is neither sender nor recipient gets 401, and anyone else gets the stored message with both parties' profiles. The database is never changed |
| MessagesRoutes.NotFoundOnlyForMissingIds | routes/messages.js:23-38 | in a valid database the detail query drops no message, so 404 means exactly that the id is in the integer range and not stored; an id beyond the range is 500 |
| MessagesRoutes.Send | routes/messages.js:57-72 | succeeds exactly when the actor and the requested recipient are registered users and the id sequence is still within the integer range. It adds one message under the sequence's next value, which then advances by one: the actor as sender, the recipient and body from the request, sent at `now`, unread. Existing messages and users are unchanged. A failure changes nothing |
| MessagesRoutes.MarkRead | routes/messages.js:82-115 | an id beyond 2147483647 is the untranslated 500. Otherwise a missing id is 404, decided before the recipient check; anyone but the recipient, the sender included, gets 401, and both errors change nothing. For the recipient, only that message's `read_at` becomes `now`, set or not before, and the reply is `{id, read_at}` |
| MessagesRoutes.MarkReadTwice | routes/messages.js:104-109 | for a stored id in the integer range, a second mark by the recipient succeeds and replaces the first timestamp with the second |
| UsersRoutes.ListUsers | routes/users.js:12-22 | succeeds with the profile of every user, and only users' profiles, without changing the database |
| UsersRoutes.GetUser | routes/users.js:29-47 | an unknown username is 404 "User not found". A known one yields its profile with `join_at` and `last_login_at` as stored. The database is never changed |
| UsersRoutes.GetMessagesTo | routes/users.js:58-74 | succeeds with exactly the messages addressed to the user whose sender exists, each once, joined with the sender; the database is unchanged |
| UsersRoutes.GetMessagesFrom | routes/users.js:85-101 | succeeds with exactly the messages sent by the user whose recipient exists, each once, joined with the recipient; the database is unchanged |
| Service.RegisterStep | routes/auth.js:48-68 | `POST /register` keeps the database valid, only evolves it, and stamps nothing after the clock |
| Service.ModelRegisterStep | models/user.js:15-30 | `User.register` keeps the database valid, only evolves it, and stamps nothing after the clock |
| Service.TouchLoginStep | models/user.js:56-69 | the intended `updateLoginTimestamp` keeps the database valid, only evolves it, and stamps nothing after the clock |
| Service.SendStep | routes/messages.js:57-72 | `POST /` keeps the database valid, only evolves it, and stamps nothing after the clock |
| Service.MarkReadStep | routes/messages.js:82-115 | `POST /:id/read` keeps the database valid, only evolves it, and reads no message before it was sent |
| Service.RegisterThenGetUser | routes/users.js:29-47 | after `POST /register`, `GET /:username` shows the user with NULL profile columns and timestamps; after `User.register`, it shows the arguments and `now` as join and last-login time |
| Service.ApplyStep | routes/messages.js:20-115 | any single request to any handler (auth, users, messages, and the `User` methods through the step lemmas above) keeps the database valid: users keyed by name, ids below the sequence, both ends of every message registered. No row is removed. Name, hash, join time, and a message's parties, body and send time never change. A read message stays read. Every timestamp stays at or before the clock |
| Service.EmptyIsValid | routes/messages.js:20-115 | the fresh database, before any request, is valid and has no stamp after time 0, so the trace theorem covers the service from its first request |
| Service.RunKeepsInvariants | routes/messages.js:20-115 | the same over any sequence of requests to any handler. Under a clock that never goes back, no message is read before it was sent |
| Service.ConversationSend | routes/messages.js:57-68 | after Alice and Bob register and Alice sends Bob "hi", the message has id 1 and Bob's inbox lists exactly that message, unread, from Alice |
| Service.ConversationRead | routes/messages.js:82-111 | after Bob marks it read, he sees `read_at` set and Alice can still view it. Alice cannot mark it read, Carol cannot view it, and an unissued id is 404 even for Carol |

## Left out

- HTTP routing, `req`/`res`/`next` plumbing and JSON serialisation are not modelled. Each handler is a function, and each error is a status and a message.
- The flat columns of the join queries (`from_username`, `from_first_name`, ...) are grouped into `Profile` records; the information is the same.
- SQL text and the `pg` driver are not modelled. Queries are map lookups, and an inner join that finds no user drops the row.
- bcrypt internals, the work factor and one-wayness are not modelled. The random salt is a parameter, and the stored key is the password's first 72 characters. Characters stand in for bytes, so for a password with multi-byte characters the cut falls later than bcrypt's 72-byte cut.
- JWT is reduced to sign and verify over `{username, iat}` with a shared secret. The middleware that resolves a token to `req.user` is not part of this model: the actor is a plain input.
- Wall-clock time is a `nat` argument.
- Concurrent requests are not modelled, including the race between two mark-read calls.
- Request fields are strings or absent. Other JSON types (numbers, booleans) are not modelled.
- The application's error handler is not part of this model. Untranslated errors are given Express's default status 500, and their message text (`Errors.UntranslatedStoreError`) is a placeholder for PostgreSQL's own.
- MessagesRoutes.GetMessage: takes the id as a `nat`. A non-numeric id in the URL, which PostgreSQL rejects with an untranslated error, is not modelled. An id beyond the integer range is modelled.
- MessagesRoutes.MarkRead: takes the id as a `nat`, for the same reason.
- MessagesRoutes.Send: a rejected insert leaves the id sequence unchanged. PostgreSQL's sequence would have advanced, so later ids can differ from the real ones.
- UserModel.Register: a store error other than a key violation does not occur in the abstract database. The catch block would turn it into the same 400.
- UserModel.Authenticate: the abstract database never fails. The catch's 400 is reachable only through an absent password.
- UserModel.All: returns a set, since the query has no ORDER BY. The catch's 404 belongs to the code as written (see Findings).
- UserModel.Get: its catch's 404 likewise belongs to the code as written.
- The unreachable `return res.json(results.rows[0])` after the throw in `POST /login` (routes/auth.js:34) has no counterpart.

## Findings

| source | as written | input that shows it | evidently intended | confidence | as-written member | corrected member |
|---|---|---|---|---|---|---|
| models/user.js:61-62 | the UPDATE statement splits `SET` across a line break, leaving `users S` and `ET last_login_at` | once `db` is imported (as written, the unbound `db` fails first; see the next row), `updateLoginTimestamp("alice")` for a registered alice: PostgreSQL reads `S` as an alias, then expects SET and finds `ET`, so the catch throws 400 | `UPDATE users SET last_login_at = current_timestamp WHERE username = $1` | high, not executed | UserModel.UpdateLoginTimestampAsWritten | UserModel.UpdateLoginTimestamp |
| models/user.js:3 | the module imports only `ExpressError`, yet uses `bcrypt` and `BCRYPT_WORK_FACTOR` (line 17) and `db` (line 19 and every other method) | `User.register({username: "alice", password: "pw"})` on an empty database: `bcrypt` is unbound, the ReferenceError is caught, and it throws 400 "Could not register user"; every other method likewise throws its catch error | require bcrypt, db and BCRYPT_WORK_FACTOR as routes/auth.js does | high, not executed | UserModel.InvokeAsWritten | UserModel.Register | 