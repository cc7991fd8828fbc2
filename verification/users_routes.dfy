/** routes/users.js: read-only queries over the database. The routes issue
    their own SQL rather than calling `User`, but each query is the same as
    the matching `User` method's (for instance routes/users.js:61-68 and
    models/user.js:162-174), so the model's function for that query stands
    in for both. None writes. */
module UsersRoutes {
  import opened Wrappers
  import opened Errors
  import opened Db
  import UserModel

  /** `GET /`: `{users: [...]}`, the public columns of every user. */
  function ListUsers(st: Store): (r: Step<set<Profile>>)
    ensures r.store == st
    ensures r.out.Ok?
    ensures forall u :: u in st.users ==> ProfileOf(st.users[u]) in r.out.value
    ensures forall p :: p in r.out.value ==> exists u :: u in st.users && p == ProfileOf(st.users[u])
  {
    Step(Ok(UserModel.All(st)), st)
  }

  /** `GET /:username`: the user's detail columns, or 404 "User not found". */
  function GetUser(st: Store, username: string): (r: Step<UserDetail>)
    ensures r.store == st
    ensures username !in st.users ==> r.out == Err(UserNotFound)
    ensures username in st.users ==> r.out == Ok(DetailOf(st.users[username]))
    ensures Valid(st) && r.out.Ok? ==>
              && r.out.value.username == username
              && r.out.value.joinAt == st.users[username].joinAt
              && r.out.value.lastLoginAt == st.users[username].lastLoginAt
  {
    match UserModel.Get(st, username)
    case None => Step(Err(UserNotFound), st)
    case Some(detail) => Step(Ok(detail), st)
  }

  /** `GET /:username/to`: every message addressed to `username` whose sender
      exists, once each, joined with the sender's profile. */
  method GetMessagesTo(st: Store, username: string) returns (out: Outcome<seq<Row>>, after: Store)
    ensures after == st
    ensures out.Ok?
    ensures forall i :: 0 <= i < |out.value| ==>
              && out.value[i].id in st.messages
              && st.messages[out.value[i].id].to == username
              && st.messages[out.value[i].id].from in st.users
              && out.value[i] == RowFor(st, Received, out.value[i].id)
    ensures forall id :: id in st.messages && st.messages[id].to == username
                         && st.messages[id].from in st.users ==>
              exists i :: 0 <= i < |out.value| && out.value[i].id == id
    ensures forall i, j :: 0 <= i < j < |out.value| ==> out.value[i].id != out.value[j].id
  {
    var rows := UserModel.MessagesTo(st, username);
    out, after := Ok(rows), st;
  }

  /** `GET /:username/from`: every message sent by `username` whose
      recipient exists, once each, joined with the recipient's profile. */
  method GetMessagesFrom(st: Store, username: string) returns (out: Outcome<seq<Row>>, after: Store)
    ensures after == st
    ensures out.Ok?
    ensures forall i :: 0 <= i < |out.value| ==>
              && out.value[i].id in st.messages
              && st.messages[out.value[i].id].from == username
              && st.messages[out.value[i].id].to in st.users
              && out.value[i] == RowFor(st, Sent, out.value[i].id)
    ensures forall id :: id in st.messages && st.messages[id].from == username
                         && st.messages[id].to in st.users ==>
              exists i :: 0 <= i < |out.value| && out.value[i].id == id
    ensures forall i, j :: 0 <= i < j < |out.value| ==> out.value[i].id != out.value[j].id
  {
    var rows := UserModel.MessagesFrom(st, username);
    out, after := Ok(rows), st;
  }
}
