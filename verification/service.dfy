/** The handlers taken together as one state machine over the database:
    a request, handled at clock time `now`, leaves a new database. The
    listing routes only read and are left out of the dispatch. */
module Service {
  import opened Wrappers
  import opened Errors
  import opened Credentials
  import opened Db
  import AuthRoutes
  import MessagesRoutes
  import UsersRoutes
  import UserModel

  datatype Request =
    | Login(secret: string, body: AuthRoutes.AuthBody)
    | Register(body: AuthRoutes.AuthBody, salt: nat)
    | ViewUser(username: string)
    | ListUsers
    | ViewMessage(actor: string, id: nat)
    | SendMessage(actor: string, req: MessagesRoutes.SendBody)
    | MarkRead(actor: string, id: nat)
    | ModelRegister(args: UserModel.RegisterArgs, salt: nat)
    | ModelTouchLogin(username: string)

  /** The database after handling `req` at time `now`. */
  function Apply(st: Store, req: Request, now: nat): Store {
    match req
    case Login(secret, body) => AuthRoutes.Login(st, secret, body, now).store
    case Register(body, salt) => AuthRoutes.Register(st, body, salt).store
    case ViewUser(u) => UsersRoutes.GetUser(st, u).store
    case ListUsers => UsersRoutes.ListUsers(st).store
    case ViewMessage(actor, id) => MessagesRoutes.GetMessage(st, actor, id).store
    case SendMessage(actor, body) => MessagesRoutes.Send(st, actor, body, now).store
    case MarkRead(actor, id) => MessagesRoutes.MarkRead(st, actor, id, now).store
    case ModelRegister(args, salt) => UserModel.Register(st, args, salt, now).store
    case ModelTouchLogin(u) => UserModel.UpdateLoginTimestamp(st, u, now).store
  }

  /** What no request undoes: users and messages are never removed; a
      user's name, hash and join time never change; a message's parties,
      body and send time never change; a read message stays read; the id
      sequence never goes back. */
  predicate Evolves(st: Store, st': Store) {
    && st.users.Keys <= st'.users.Keys
    && (forall u :: u in st.users ==>
          && st'.users[u].username == st.users[u].username
          && st'.users[u].password == st.users[u].password
          && st'.users[u].joinAt == st.users[u].joinAt)
    && st.messages.Keys <= st'.messages.Keys
    && (forall id :: id in st.messages ==>
          && st'.messages[id].(readAt := None) == st.messages[id].(readAt := None)
          && (st.messages[id].readAt.Some? ==> st'.messages[id].readAt.Some?))
    && st.nextId <= st'.nextId
  }

  lemma EvolvesTransitive(a: Store, b: Store, c: Store)
    requires Evolves(a, b) && Evolves(b, c)
    ensures Evolves(a, c)
  {
  }

  /** Every time stamp in the database is at most `t`, and no message was
      read before it was sent. */
  predicate StampedBy(st: Store, t: nat) {
    && (forall u :: u in st.users ==>
          (st.users[u].joinAt.Some? ==> st.users[u].joinAt.value <= t)
          && (st.users[u].lastLoginAt.Some? ==> st.users[u].lastLoginAt.value <= t))
    && (forall id :: id in st.messages ==>
          && st.messages[id].sentAt <= t
          && (st.messages[id].readAt.Some? ==>
                st.messages[id].sentAt <= st.messages[id].readAt.value <= t))
  }

  /** One request keeps the database valid, evolves it, and, with a clock
      that has not gone back, keeps every stamp at or before the clock. */
  lemma ApplyStep(st: Store, req: Request, t: nat, now: nat)
    requires Valid(st)
    ensures Valid(Apply(st, req, now))
    ensures Evolves(st, Apply(st, req, now))
    ensures StampedBy(st, t) && t <= now ==> StampedBy(Apply(st, req, now), now)
  {
    match req
    case Register(body, salt) => RegisterStep(st, body, salt, t, now);
    case SendMessage(actor, body) => SendStep(st, actor, body, t, now);
    case MarkRead(actor, id) => MarkReadStep(st, actor, id, t, now);
    case ModelRegister(args, salt) => ModelRegisterStep(st, args, salt, t, now);
    case ModelTouchLogin(u) => TouchLoginStep(st, u, t, now);
    case _ => assert Apply(st, req, now) == st;
  }

  lemma RegisterStep(st: Store, body: AuthRoutes.AuthBody, salt: nat, t: nat, now: nat)
    requires Valid(st)
    ensures var st' := AuthRoutes.Register(st, body, salt).store;
            Valid(st') && Evolves(st, st') && (StampedBy(st, t) && t <= now ==> StampedBy(st', now))
  {
  }

  lemma SendStep(st: Store, actor: string, body: MessagesRoutes.SendBody, t: nat, now: nat)
    requires Valid(st)
    ensures var st' := MessagesRoutes.Send(st, actor, body, now).store;
            Valid(st') && Evolves(st, st') && (StampedBy(st, t) && t <= now ==> StampedBy(st', now))
  {
  }

  lemma MarkReadStep(st: Store, actor: string, id: nat, t: nat, now: nat)
    requires Valid(st)
    ensures var st' := MessagesRoutes.MarkRead(st, actor, id, now).store;
            Valid(st') && Evolves(st, st') && (StampedBy(st, t) && t <= now ==> StampedBy(st', now))
  {
  }

  lemma ModelRegisterStep(st: Store, args: UserModel.RegisterArgs, salt: nat, t: nat, now: nat)
    requires Valid(st)
    ensures var st' := UserModel.Register(st, args, salt, now).store;
            Valid(st') && Evolves(st, st') && (StampedBy(st, t) && t <= now ==> StampedBy(st', now))
  {
  }

  lemma TouchLoginStep(st: Store, u: string, t: nat, now: nat)
    requires Valid(st)
    ensures var st' := UserModel.UpdateLoginTimestamp(st, u, now).store;
            Valid(st') && Evolves(st, st') && (StampedBy(st, t) && t <= now ==> StampedBy(st', now))
  {
  }

  /** What registering stores is what `GET /:username` then shows: the
      route's row holds NULL profile columns and timestamps, the model's
      row the arguments and `now` twice. */
  lemma RegisterThenGetUser(st: Store, body: AuthRoutes.AuthBody, salt: nat,
                            args: UserModel.RegisterArgs, salt2: nat, now: nat)
    ensures AuthRoutes.Register(st, body, salt).out.Ok? ==>
              var u := body.username.value;
              UsersRoutes.GetUser(AuthRoutes.Register(st, body, salt).store, u).out
                == Ok(UserDetail(u, None, None, None, None, None))
    ensures UserModel.Register(st, args, salt2, now).out.Ok? ==>
              var u := args.username.value;
              UsersRoutes.GetUser(UserModel.Register(st, args, salt2, now).store, u).out
                == Ok(UserDetail(u, args.firstName, args.lastName, args.phone, Some(now), Some(now)))
  {
  }

  /** The fresh database meets the invariants, so they hold from the first
      request on. */
  lemma EmptyIsValid()
    ensures Valid(Empty) && StampedBy(Empty, 0)
  {
  }

  /** A request together with the clock time at which it is handled. */
  datatype Event = Event(req: Request, at: nat)

  /** Handle the events in order. */
  function Run(st: Store, trace: seq<Event>): Store
    decreases |trace|
  {
    if |trace| == 0 then st else Run(Apply(st, trace[0].req, trace[0].at), trace[1..])
  }

  /** The clock never goes back along the trace, starting from `t`. */
  predicate Monotone(trace: seq<Event>, t: nat) {
    && (forall i :: 0 <= i < |trace| ==> t <= trace[i].at)
    && (forall i, j :: 0 <= i <= j < |trace| ==> trace[i].at <= trace[j].at)
  }

  /** Whatever sequence of requests arrives, the database stays valid, only
      evolves, and under a clock that never goes back no message is ever
      read before it was sent. */
  lemma {:induction false} RunKeepsInvariants(st: Store, trace: seq<Event>, t: nat)
    requires Valid(st)
    ensures Valid(Run(st, trace))
    ensures Evolves(st, Run(st, trace))
    ensures StampedBy(st, t) && Monotone(trace, t) ==>
              StampedBy(Run(st, trace), if |trace| == 0 then t else trace[|trace| - 1].at)
    decreases |trace|
  {
    if |trace| == 0 {
    } else {
      var now := trace[0].at;
      var st1 := Apply(st, trace[0].req, now);
      ApplyStep(st, trace[0].req, t, now);
      RunKeepsInvariants(st1, trace[1..], now);
      EvolvesTransitive(st, st1, Run(st1, trace[1..]));
      if StampedBy(st, t) && Monotone(trace, t) {
        assert Monotone(trace[1..], now);
      }
    }
  }

  const Alice := AuthRoutes.AuthBody(Some("alice"), Some("pw-a"))
  const Bob := AuthRoutes.AuthBody(Some("bob"), Some("pw-b"))

  const Hi := MessagesRoutes.SendBody(Some("bob"), Some("hi"))

  /** The database after Alice and then Bob register. */
  function Signed(): Store {
    AuthRoutes.Register(AuthRoutes.Register(Empty, Alice, 11).store, Bob, 12).store
  }

  /** ... after Alice sends Bob "hi" at time 5. */
  function Delivered(): Store {
    MessagesRoutes.Send(Signed(), "alice", Hi, 5).store
  }

  /** ... after Bob marks it read at time 6. */
  function Opened(): Store {
    MessagesRoutes.MarkRead(Delivered(), "bob", 1, 6).store
  }

  lemma SignedUp()
    ensures Signed().users.Keys == {"alice", "bob"}
    ensures Signed().messages == map[] && Signed().nextId == 1
  {
    var st1 := AuthRoutes.Register(Empty, Alice, 11).store;
    assert st1.users.Keys == {"alice"};
  }

  /** Alice and Bob register; Alice sends Bob "hi"; the message gets id 1
      and Bob's inbox holds exactly that one unread message, from Alice. */
  lemma ConversationSend()
    ensures MessagesRoutes.Send(Signed(), "alice", Hi, 5).out
              == Ok(MessagesRoutes.SentMessage(1, "alice", "bob", Some("hi"), 5))
    ensures forall id :: Listed(Delivered(), "bob", Received, id) <==> id == 1
    ensures Delivered().messages[1].body == Some("hi")
    ensures Delivered().messages[1].readAt == None
    ensures Delivered().messages[1].from == "alice"
  {
    SignedUp();
    assert Delivered().messages == map[1 := Message("alice", "bob", Some("hi"), 5, None)];
  }

  lemma DeliveredState()
    ensures Delivered().users == Signed().users
    ensures Delivered().messages == map[1 := Message("alice", "bob", Some("hi"), 5, None)]
  {
    ConversationSend();
  }

  lemma OpenedState()
    ensures Opened().users.Keys == {"alice", "bob"}
    ensures Opened().messages == map[1 := Message("alice", "bob", Some("hi"), 5, Some(6))]
  {
    SignedUp();
    DeliveredState();
    MarkOnlyMessage(Delivered(), Message("alice", "bob", Some("hi"), 5, None), 6);
  }

  lemma MarkOnlyMessage(d: Store, m: Message, now: nat)
    requires d.messages == map[1 := m]
    ensures MessagesRoutes.MarkRead(d, m.to, 1, now).store.users == d.users
    ensures MessagesRoutes.MarkRead(d, m.to, 1, now).store.messages == map[1 := m.(readAt := Some(now))]
  {
  }

  /** Bob marks the message read and then sees `read_at` set; Alice may
      view it but not mark it read; Carol may not view it; an id never
      issued is a 404 even for Carol. */
  lemma ConversationRead()
    ensures MessagesRoutes.GetMessage(Opened(), "bob", 1).out.Ok?
    ensures MessagesRoutes.GetMessage(Opened(), "bob", 1).out.value.readAt == Some(6)
    ensures MessagesRoutes.GetMessage(Opened(), "alice", 1).out.Ok?
    ensures MessagesRoutes.MarkRead(Opened(), "alice", 1, 7).out == Err(UnauthorizedAccess)
    ensures MessagesRoutes.GetMessage(Opened(), "carol", 1).out == Err(UnauthorizedAccess)
    ensures MessagesRoutes.GetMessage(Opened(), "carol", 2).out == Err(MessageNotFound)
  {
    OpenedState();
    var st := Opened();
    assert MessagesRoutes.Found(st, 1);
    assert !MessagesRoutes.Found(st, 2);
  }
}
