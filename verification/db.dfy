/** The two relations of the database, `users` keyed by username and
    `messages` keyed by a serial id, and the join queries over them.

    The schema file is not part of this model. The model assumes what the
    code and its design rely on: usernames are unique (primary key), a
    message's sender and recipient must be registered users (NOT NULL
    foreign keys), ids come from a serial counter of PostgreSQL's 4-byte
    `integer` type, and every other column accepts what the code writes,
    absent values included. */
module Db {
  import opened Wrappers
  import opened Errors
  import opened Credentials

  /** A row of `users`. */
  datatype User = User(
    username: string,
    password: PasswordHash,
    firstName: Option<string>,
    lastName: Option<string>,
    phone: Option<string>,
    joinAt: Option<nat>,
    lastLoginAt: Option<nat>)

  /** A row of `messages`, without its id (the key). */
  datatype Message = Message(
    from: string,
    to: string,
    body: Option<string>,
    sentAt: nat,
    readAt: Option<nat>)

  /** The database: both relations and the next value of the id sequence. */
  datatype Store = Store(users: map<string, User>, messages: map<nat, Message>, nextId: nat)

  /** The largest value of PostgreSQL's `integer`, the type of a serial id. */
  const MaxId := 2147483647

  /** A fresh database; a serial sequence starts at 1. */
  const Empty := Store(map[], map[], 1)

  /** What the database guarantees of every state it reaches: each user is
      stored under its own name, every id was drawn from the sequence, and
      both ends of every message are registered users. */
  predicate Valid(st: Store) {
    && (forall u :: u in st.users ==> st.users[u].username == u)
    && (forall id :: id in st.messages ==> id < st.nextId && id <= MaxId)
    && (forall id :: id in st.messages ==>
          st.messages[id].from in st.users && st.messages[id].to in st.users)
  }

  /** The result of a handler together with the database it leaves behind. */
  datatype Step<+T> = Step(out: Outcome<T>, store: Store)

  /** `{username, first_name, last_name, phone}`: the public columns of a user. */
  datatype Profile = Profile(
    username: string,
    firstName: Option<string>,
    lastName: Option<string>,
    phone: Option<string>)

  /** `{username, first_name, last_name, phone, join_at, last_login_at}`. */
  datatype UserDetail = UserDetail(
    username: string,
    firstName: Option<string>,
    lastName: Option<string>,
    phone: Option<string>,
    joinAt: Option<nat>,
    lastLoginAt: Option<nat>)

  function ProfileOf(u: User): Profile {
    Profile(u.username, u.firstName, u.lastName, u.phone)
  }

  function DetailOf(u: User): UserDetail {
    UserDetail(u.username, u.firstName, u.lastName, u.phone, u.joinAt, u.lastLoginAt)
  }

  /** Which end of a message a listing is about: the messages a user sent
      (joined with their recipients) or received (joined with their senders). */
  datatype Side = Sent | Received

  function Owner(m: Message, side: Side): string {
    if side == Sent then m.from else m.to
  }

  function Counterpart(m: Message, side: Side): string {
    if side == Sent then m.to else m.from
  }

  /** `{id, body, sent_at, read_at}` with the other party's profile. */
  datatype Row = Row(
    id: nat,
    body: Option<string>,
    sentAt: nat,
    readAt: Option<nat>,
    other: Profile)

  /** Message `id` belongs in `username`'s listing for `side`: the filter
      matches and the inner join with the other party finds a user. */
  predicate Listed(st: Store, username: string, side: Side, id: nat) {
    && id in st.messages
    && Owner(st.messages[id], side) == username
    && Counterpart(st.messages[id], side) in st.users
  }

  function RowFor(st: Store, side: Side, id: nat): Row
    requires id in st.messages && Counterpart(st.messages[id], side) in st.users
  {
    var m := st.messages[id];
    Row(id, m.body, m.sentAt, m.readAt, ProfileOf(st.users[Counterpart(m, side)]))
  }

  /** The join query behind `messagesFrom`/`messagesTo` and the `/from` and
      `/to` routes: every listed message exactly once, each row carrying the
      stored fields and the other party's profile. The query has no ORDER BY,
      so the order of the rows is left open. */
  method Correspondence(st: Store, username: string, side: Side) returns (rows: seq<Row>)
    ensures forall i :: 0 <= i < |rows| ==>
              Listed(st, username, side, rows[i].id) && rows[i] == RowFor(st, side, rows[i].id)
    ensures forall id :: Listed(st, username, side, id) ==>
              exists i :: 0 <= i < |rows| && rows[i].id == id
    ensures forall i, j :: 0 <= i < j < |rows| ==> rows[i].id != rows[j].id
  {
    var pending := st.messages.Keys;
    rows := [];
    while pending != {}
      invariant pending <= st.messages.Keys
      invariant forall i :: 0 <= i < |rows| ==>
                  Listed(st, username, side, rows[i].id) && rows[i] == RowFor(st, side, rows[i].id)
      invariant forall i :: 0 <= i < |rows| ==> rows[i].id !in pending
      invariant forall id :: Listed(st, username, side, id) && id !in pending ==>
                  exists i :: 0 <= i < |rows| && rows[i].id == id
      invariant forall i, j :: 0 <= i < j < |rows| ==> rows[i].id != rows[j].id
      decreases pending
    {
      var id :| id in pending;
      var m := st.messages[id];
      var before := rows;
      if Owner(m, side) == username && Counterpart(m, side) in st.users {
        rows := rows + [RowFor(st, side, id)];
      }
      pending := pending - {id};
      forall k | Listed(st, username, side, k) && k !in pending
        ensures exists i :: 0 <= i < |rows| && rows[i].id == k
      {
        if k == id {
          assert rows[|rows| - 1].id == k;
        } else {
          var i :| 0 <= i < |before| && before[i].id == k;
          assert rows[i].id == k;
        }
      }
    }
  }
}
