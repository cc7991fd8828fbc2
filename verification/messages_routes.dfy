/** routes/messages.js: view one message, send one, mark one read. The
    actor is the username the authentication middleware placed on the
    request; the middleware is not part of this model. */
module MessagesRoutes {
  import opened Wrappers
  import opened Errors
  import opened Db

  /** Who may see a message: its sender or its recipient. */
  predicate CanView(actor: string, m: Message) {
    actor == m.from || actor == m.to
  }

  /** Who may mark a message read: its recipient only. */
  predicate CanMarkRead(actor: string, m: Message) {
    actor == m.to
  }

  /** The detail query finds a row: the message exists and both joins with
      `users` match. */
  predicate Found(st: Store, id: nat) {
    id in st.messages && st.messages[id].from in st.users && st.messages[id].to in st.users
  }

  /** `{id, body, sent_at, read_at}` with the profiles of both parties. */
  datatype MessageDetail = MessageDetail(
    id: nat,
    body: Option<string>,
    sentAt: nat,
    readAt: Option<nat>,
    fromUser: Profile,
    toUser: Profile)

  /** `GET /:id`. An id beyond the integer range fails in the database and
      that error is passed on untranslated. Otherwise existence is settled
      before ownership: a message the query does not find is a 404 for
      everyone, and only then is an actor other than the two parties refused
      with 401. Nothing is written. */
  function GetMessage(st: Store, actor: string, id: nat): (r: Step<MessageDetail>)
    ensures r.store == st
    ensures id > MaxId ==> r.out == Err(UntranslatedStoreError)
    ensures id <= MaxId && !Found(st, id) ==> r.out == Err(MessageNotFound)
    ensures id <= MaxId && Found(st, id) && !CanView(actor, st.messages[id]) ==>
              r.out == Err(UnauthorizedAccess)
    ensures r.out.Ok? <==> id <= MaxId && Found(st, id) && CanView(actor, st.messages[id])
    ensures r.out.Ok? ==>
              var m := st.messages[id];
              var d := r.out.value;
              && d.id == id && d.body == m.body && d.sentAt == m.sentAt && d.readAt == m.readAt
              && d.fromUser == ProfileOf(st.users[m.from])
              && d.toUser == ProfileOf(st.users[m.to])
              && (Valid(st) ==> d.fromUser.username == m.from && d.toUser.username == m.to)
  {
    if id > MaxId then
      Step(Err(UntranslatedStoreError), st)
    else if !Found(st, id) then
      Step(Err(MessageNotFound), st)
    else
      var m := st.messages[id];
      if !CanView(actor, m) then
        Step(Err(UnauthorizedAccess), st)
      else
        Step(Ok(MessageDetail(id, m.body, m.sentAt, m.readAt,
                              ProfileOf(st.users[m.from]), ProfileOf(st.users[m.to]))), st)
  }

  /** The request body `{to_username, body}`. */
  datatype SendBody = SendBody(toUsername: Option<string>, body: Option<string>)

  /** `{id, from_username, to_username, body, sent_at}` */
  datatype SentMessage = SentMessage(id: nat, from: string, to: string, body: Option<string>, sentAt: nat)

  /** `POST /`. The sender is the actor, never a field of the request; the
      recipient and body come from the request, the send time is `now`, the
      id is the next value of the sequence. The foreign keys refuse a sender
      or recipient that is not a registered user (an absent recipient
      included), a sequence past the integer range refuses to give an id,
      and either error reaches the transport untranslated. */
  function Send(st: Store, actor: string, req: SendBody, now: nat): (r: Step<SentMessage>)
    ensures r.out.Ok? <==>
              && actor in st.users && req.toUsername.Some? && req.toUsername.value in st.users
              && st.nextId <= MaxId
    ensures r.out.Err? ==> r == Step(Err(UntranslatedStoreError), st)
    ensures r.out.Ok? ==>
              var sent := r.out.value;
              && sent == SentMessage(st.nextId, actor, req.toUsername.value, req.body, now)
              && r.store.nextId == st.nextId + 1
              && r.store.messages == st.messages[sent.id := Message(actor, req.toUsername.value, req.body, now, None)]
              && r.store.users == st.users
    ensures r.out.Ok? && Valid(st) ==>
              && r.out.value.id !in st.messages
              && |r.store.messages| == |st.messages| + 1
              && (forall i :: i in st.messages ==> r.store.messages[i] == st.messages[i])
    ensures Valid(st) ==> Valid(r.store)
  {
    if actor in st.users && req.toUsername.Some? && req.toUsername.value in st.users
       && st.nextId <= MaxId then
      var id := st.nextId;
      var m := Message(actor, req.toUsername.value, req.body, now, None);
      Step(Ok(SentMessage(id, actor, m.to, m.body, now)),
           st.(messages := st.messages[id := m], nextId := id + 1))
    else
      Step(Err(UntranslatedStoreError), st)
  }

  /** `{id, read_at}` */
  datatype ReadReceipt = ReadReceipt(id: nat, readAt: nat)

  /** `POST /:id/read`. An id beyond the integer range is the database's
      untranslated error. A missing id is a 404, settled before the recipient
      check; anyone but the recipient, the sender included, gets 401 and the
      database is untouched. The recipient's call sets `read_at` to `now`
      whether or not it was already set, and nothing else changes. */
  function MarkRead(st: Store, actor: string, id: nat, now: nat): (r: Step<ReadReceipt>)
    ensures id > MaxId ==> r == Step(Err(UntranslatedStoreError), st)
    ensures id <= MaxId && id !in st.messages ==> r == Step(Err(MessageNotFound), st)
    ensures id <= MaxId && id in st.messages && !CanMarkRead(actor, st.messages[id]) ==>
              r == Step(Err(UnauthorizedAccess), st)
    ensures r.out.Ok? <==> id <= MaxId && id in st.messages && CanMarkRead(actor, st.messages[id])
    ensures r.out.Ok? ==>
              && r.out.value == ReadReceipt(id, now)
              && r.store.messages.Keys == st.messages.Keys
              && r.store.messages[id] == st.messages[id].(readAt := Some(now))
              && (forall i :: i in st.messages && i != id ==> r.store.messages[i] == st.messages[i])
              && r.store.users == st.users
              && r.store.nextId == st.nextId
    ensures Valid(st) ==> Valid(r.store)
  {
    if id > MaxId then
      Step(Err(UntranslatedStoreError), st)
    else if id !in st.messages then
      Step(Err(MessageNotFound), st)
    else
      var m := st.messages[id];
      if !CanMarkRead(actor, m) then
        Step(Err(UnauthorizedAccess), st)
      else
        Step(Ok(ReadReceipt(id, now)), st.(messages := st.messages[id := m.(readAt := Some(now))]))
  }

  /** In a valid database the joins of `GET /:id` never drop a message, so
      the only 404 is for an id in the integer range that was never issued;
      an id beyond the range is the untranslated 500. */
  lemma NotFoundOnlyForMissingIds(st: Store, actor: string, id: nat)
    requires Valid(st)
    ensures GetMessage(st, actor, id).out == Err(MessageNotFound) <==> id <= MaxId && id !in st.messages
    ensures id > MaxId ==> GetMessage(st, actor, id).out == Err(UntranslatedStoreError)
  {
  }

  /** Marking read overwrites: a second mark by the recipient replaces the
      first timestamp, and `read_at` is never reset to NULL. (A stored id is
      always in the integer range in a valid database; beyond it both calls
      fail.) */
  lemma MarkReadTwice(st: Store, id: nat, t1: nat, t2: nat)
    requires id in st.messages
    ensures var st1 := MarkRead(st, st.messages[id].to, id, t1).store;
            var r2 := MarkRead(st1, st.messages[id].to, id, t2);
            && (id <= MaxId ==> r2.out == Ok(ReadReceipt(id, t2)) && r2.store.messages[id].readAt == Some(t2))
            && (id > MaxId ==> r2 == Step(Err(UntranslatedStoreError), st))
  {
  }
}
