/** The `User` class of models/user.js: its static methods as functions of
    the database. Each method wraps its query in a try block whose catch
    throws one fixed error; the methods below are the bodies as their doc
    comments and queries intend them, with the module's missing imports and
    the broken UPDATE statement treated separately at the end. */
module UserModel {
  import opened Wrappers
  import opened Errors
  import opened Credentials
  import opened Db

  /** The argument object `{username, password, first_name, last_name, phone}`. */
  datatype RegisterArgs = RegisterArgs(
    username: Option<string>,
    password: Option<string>,
    firstName: Option<string>,
    lastName: Option<string>,
    phone: Option<string>)

  /** `User.register`: hash the password, insert the user with join and last
      login both at `now`, return the public columns. Hashing an absent
      password throws, an absent username violates the primary key, a taken
      one the uniqueness of it; the catch turns all three into the same 400. */
  function Register(st: Store, args: RegisterArgs, salt: nat, now: nat): (r: Step<Profile>)
    ensures r.out.Err? <==>
              args.username.None? || args.password.None? || args.username.value in st.users
    ensures r.out.Err? ==> r.out.error == CouldNotRegister && r.store == st
    ensures r.out.Ok? ==>
              var u := args.username.value;
              && r.store.users.Keys == st.users.Keys + {u}
              && (forall v :: v in st.users ==> r.store.users[v] == st.users[v])
              && r.store.users[u] == User(u, r.store.users[u].password, args.firstName,
                                          args.lastName, args.phone, Some(now), Some(now))
              && Compare(args.password.value, r.store.users[u].password)
              && r.out.value == ProfileOf(r.store.users[u])
              && r.store.messages == st.messages
              && r.store.nextId == st.nextId
    ensures Valid(st) ==> Valid(r.store)
  {
    if args.password.None? || args.username.None? || args.username.value in st.users then
      Step(Err(CouldNotRegister), st)
    else
      var u := args.username.value;
      var user := User(u, Hash(args.password.value, salt), args.firstName, args.lastName,
                       args.phone, Some(now), Some(now));
      Step(Ok(ProfileOf(user)), st.(users := st.users[u := user]))
  }

  /** `User.authenticate`: false for a username with no row (an absent one
      matches no row either), otherwise bcrypt's verdict on the stored hash;
      comparing an absent password throws, which the catch turns into 400. */
  function Authenticate(st: Store, username: Option<string>, password: Option<string>): (r: Outcome<bool>)
    ensures r == Ok(true) <==>
              && username.Some? && username.value in st.users
              && password.Some? && Compare(password.value, st.users[username.value].password)
    ensures r.Err? <==> username.Some? && username.value in st.users && password.None?
    ensures r.Err? ==> r.error == CouldNotAuthenticate
    ensures username.None? || username.value !in st.users ==> r == Ok(false)
  {
    if username.Some? && username.value in st.users then
      if password.None? then Err(CouldNotAuthenticate)
      else Ok(Compare(password.value, st.users[username.value].password))
    else
      Ok(false)
  }

  /** `User.updateLoginTimestamp` as its doc comment intends: set the named
      user's `last_login_at` to `now`. An UPDATE that matches no row is not an
      error, so an unknown name leaves the database as it was. */
  function UpdateLoginTimestamp(st: Store, username: string, now: nat): (r: Step<()>)
    ensures r.out.Ok?
    ensures r.store.users.Keys == st.users.Keys
    ensures username in st.users ==>
              r.store.users[username] == st.users[username].(lastLoginAt := Some(now))
    ensures forall v :: v in st.users && v != username ==> r.store.users[v] == st.users[v]
    ensures r.store.messages == st.messages && r.store.nextId == st.nextId
    ensures Valid(st) ==> Valid(r.store)
  {
    if username in st.users then
      var user := st.users[username];
      Step(Ok(()), st.(users := st.users[username := user.(lastLoginAt := Some(now))]))
    else
      Step(Ok(()), st)
  }

  /** `User.all`: the public columns of every user, never the password. */
  function All(st: Store): (r: set<Profile>)
    ensures forall u :: u in st.users ==> ProfileOf(st.users[u]) in r
    ensures forall p :: p in r ==> exists u :: u in st.users && p == ProfileOf(st.users[u])
    ensures Valid(st) ==> forall p :: p in r ==> p.username in st.users
  {
    set u | u in st.users :: ProfileOf(st.users[u])
  }

  /** `User.get`: the detail columns of the named user, or nothing (the
      method returns `undefined` for a missing row rather than throwing). */
  function Get(st: Store, username: string): (r: Option<UserDetail>)
    ensures r.Some? <==> username in st.users
    ensures r.Some? ==> r.value == DetailOf(st.users[username])
    ensures Valid(st) && r.Some? ==> r.value.username == username
  {
    if username in st.users then Some(DetailOf(st.users[username])) else None
  }

  /** `User.messagesFrom`: every message the user sent whose recipient
      exists, once each, tagged with the recipient's profile. */
  method MessagesFrom(st: Store, username: string) returns (rows: seq<Row>)
    ensures forall i :: 0 <= i < |rows| ==>
              && rows[i].id in st.messages
              && st.messages[rows[i].id].from == username
              && st.messages[rows[i].id].to in st.users
              && rows[i] == RowFor(st, Sent, rows[i].id)
    ensures forall id :: id in st.messages && st.messages[id].from == username
                         && st.messages[id].to in st.users ==>
              exists i :: 0 <= i < |rows| && rows[i].id == id
    ensures forall i, j :: 0 <= i < j < |rows| ==> rows[i].id != rows[j].id
  {
    rows := Correspondence(st, username, Sent);
    assert forall id :: Listed(st, username, Sent, id) <==>
      id in st.messages && st.messages[id].from == username && st.messages[id].to in st.users;
  }

  /** `User.messagesTo`: every message the user received whose sender
      exists, once each, tagged with the sender's profile. */
  method MessagesTo(st: Store, username: string) returns (rows: seq<Row>)
    ensures forall i :: 0 <= i < |rows| ==>
              && rows[i].id in st.messages
              && st.messages[rows[i].id].to == username
              && st.messages[rows[i].id].from in st.users
              && rows[i] == RowFor(st, Received, rows[i].id)
    ensures forall id :: id in st.messages && st.messages[id].to == username
                         && st.messages[id].from in st.users ==>
              exists i :: 0 <= i < |rows| && rows[i].id == id
    ensures forall i, j :: 0 <= i < j < |rows| ==> rows[i].id != rows[j].id
  {
    rows := Correspondence(st, username, Received);
    assert forall id :: Listed(st, username, Received, id) <==>
      id in st.messages && st.messages[id].to == username && st.messages[id].from in st.users;
  }

  /** A user registered through `User.register` authenticates with exactly
      the passwords that agree with the registered one on the 72 bytes
      bcrypt reads: the registered password itself and, when the registered
      password is itself at most 72 bytes, no other password of at most 72
      bytes. */
  lemma RegisterThenAuthenticate(st: Store, args: RegisterArgs, salt: nat, now: nat, attempt: string)
    requires Register(st, args, salt, now).out.Ok?
    ensures var st' := Register(st, args, salt, now).store;
            && Authenticate(st', args.username, Some(attempt)) == Ok(Key(attempt) == Key(args.password.value))
            && Authenticate(st', args.username, args.password) == Ok(true)
            && (|attempt| <= MaxKeyLength && |args.password.value| <= MaxKeyLength ==>
                  Authenticate(st', args.username, Some(attempt)) == Ok(attempt == args.password.value))
  {
    var st' := Register(st, args, salt, now).store;
    var h := st'.users[args.username.value].password;
    assert h == Hash(args.password.value, salt);
    assert Compare(attempt, h) <==> Key(attempt) == Key(args.password.value);
  }

  // ---------------------------------------------------------------------
  // The code as written.

  /** The statement `updateLoginTimestamp` sends, split into words: the
      keyword SET is broken across a line, leaving `S` and `ET`. */
  const UpdateLoginWords: seq<string> :=
    ["UPDATE", "users", "S", "ET", "last_login_at", "=", "current_timestamp",
     "WHERE", "username", "=", "$1"]

  /** The statement the doc comment describes. */
  const IntendedUpdateLoginWords: seq<string> :=
    ["UPDATE", "users", "SET", "last_login_at", "=", "current_timestamp",
     "WHERE", "username", "=", "$1"]

  /** PostgreSQL's shape of an UPDATE head: `UPDATE table [alias] SET ...`.
      After the table, a word other than SET is read as an alias, and then
      SET must follow. */
  predicate UpdateParses(words: seq<string>) {
    && |words| >= 3
    && words[0] == "UPDATE"
    && (words[2] == "SET" || (|words| >= 4 && words[3] == "SET"))
  }

  /** `updateLoginTimestamp` with the statement it actually sends: the
      database rejects the statement, and the catch throws its 400. */
  function UpdateLoginTimestampAsWritten(st: Store, username: string, now: nat): (r: Step<()>)
    ensures r == Step(Err(CouldNotUpdateLogin), st)
  {
    if UpdateParses(UpdateLoginWords) then UpdateLoginTimestamp(st, username, now)
    else Step(Err(CouldNotUpdateLogin), st)
  }

  /** The discrepancy: the statement as sent does not parse while the
      intended one does, so for a registered user the method as written
      fails with 400 and leaves `last_login_at` alone, where the intended
      method succeeds and sets it to `now`. */
  lemma UpdateLoginTimestampAsWrittenFails(st: Store, username: string, now: nat)
    requires username in st.users
    ensures !UpdateParses(UpdateLoginWords) && UpdateParses(IntendedUpdateLoginWords)
    ensures UpdateLoginTimestampAsWritten(st, username, now).out == Err(CouldNotUpdateLogin)
    ensures UpdateLoginTimestampAsWritten(st, username, now).store.users[username].lastLoginAt
              == st.users[username].lastLoginAt
    ensures UpdateLoginTimestamp(st, username, now).out.Ok?
    ensures UpdateLoginTimestamp(st, username, now).store.users[username].lastLoginAt == Some(now)
  {
  }

  /** The static methods of the class. */
  datatype Method = RegisterMethod | AuthenticateMethod | UpdateLoginTimestampMethod
                  | AllMethod | GetMethod | MessagesFromMethod | MessagesToMethod

  /** The module-level names each method's body uses. */
  function FreeNames(m: Method): set<string> {
    match m
    case RegisterMethod => {"bcrypt", "BCRYPT_WORK_FACTOR", "db"}
    case AuthenticateMethod => {"bcrypt", "db"}
    case _ => {"db"}
  }

  /** The error each method's catch block throws. */
  function CatchError(m: Method): HttpError {
    match m
    case RegisterMethod => CouldNotRegister
    case AuthenticateMethod => CouldNotAuthenticate
    case UpdateLoginTimestampMethod => CouldNotUpdateLogin
    case AllMethod => CouldNotFetchUsers
    case GetMethod => CouldNotFetchUser
    case MessagesFromMethod => CouldNotFetchFrom
    case MessagesToMethod => CouldNotFetchTo
  }

  /** The names models/user.js binds at module level: only `ExpressError`. */
  const ModuleScope: set<string> := {"ExpressError"}

  /** The imports the methods evidently expect. */
  const IntendedScope: set<string> := {"ExpressError", "bcrypt", "BCRYPT_WORK_FACTOR", "db"}

  /** Calling method `m` in a module whose scope binds `scope`: an unbound
      name throws a ReferenceError inside the try, so the call ends in the
      catch's error with the database untouched; otherwise it runs `intended`. */
  function InvokeAsWritten<T>(m: Method, scope: set<string>, st: Store, intended: Step<T>): (r: Step<T>)
    ensures !(FreeNames(m) <= scope) ==> r == Step(Err(CatchError(m)), st)
    ensures FreeNames(m) <= scope ==> r == intended
  {
    if FreeNames(m) <= scope then intended else Step(Err(CatchError(m)), st)
  }

  /** As written, every method of the class fails with its catch error,
      whatever it was asked; with the intended imports each runs its body. */
  lemma UnboundNamesFailEveryMethod<T>(m: Method, st: Store, intended: Step<T>)
    ensures InvokeAsWritten(m, ModuleScope, st, intended) == Step(Err(CatchError(m)), st)
    ensures InvokeAsWritten(m, IntendedScope, st, intended) == intended
  {
    assert "db" in FreeNames(m) && "db" !in ModuleScope;
  }

  /** For instance, registering a fresh user as written fails with 400 where
      the intended `Register` succeeds. */
  lemma RegisterAsWrittenFails(st: Store, args: RegisterArgs, salt: nat, now: nat)
    requires args.username.Some? && args.password.Some? && args.username.value !in st.users
    ensures InvokeAsWritten(RegisterMethod, ModuleScope, st, Register(st, args, salt, now)).out
              == Err(CouldNotRegister)
    ensures Register(st, args, salt, now).out.Ok?
  {
    UnboundNamesFailEveryMethod(RegisterMethod, st, Register(st, args, salt, now));
  }
}
