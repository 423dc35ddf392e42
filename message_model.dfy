/** The `Message` model: sending a message through the SMS gateway and storing
    it, marking it read, and loading it with both users' summaries. */
module MessageModel {
  import opened Common
  import opened Tables
  import opened Gateway

  /** What `create` returns: `{id, from_username, to_username, body, sent_at}`. */
  datatype Created = Created(id: int, fromUsername: string, toUsername: string, body: string, sentAt: Time)

  /** What `markRead` returns: `{id, read_at}`. */
  datatype ReadReceipt = ReadReceipt(id: int, readAt: Time)

  /** What `get` returns: `{id, from_user, to_user, body, sent_at, read_at}`. */
  datatype Detail = Detail(
    id: int,
    fromUser: UserSummary,
    toUser: UserSummary,
    body: string,
    sentAt: Time,
    readAt: Option<Time>)

  /** JavaScript truthiness of the `phone` column: NULL and "" are falsy. */
  predicate HasPhone(phone: Option<string>) {
    phone.Some? && phone.value != ""
  }

  /** `SELECT phone FROM users WHERE username = $1`, then `rows[0].phone` and the
      falsy check. No row makes `rows[0]` undefined, so reading `.phone` throws
      a TypeError; a row without a phone throws NotFoundError. */
  function LookupPhone(users: map<string, User>, username: string): (r: Result<string, Error>)
    ensures r.Ok? <==> username in users && HasPhone(users[username].phone)
    ensures r.Ok? ==> users[username].phone == Some(r.value) && r.value != ""
    ensures username !in users ==> r == Err(NoUserRow(username))
    ensures username in users && !HasPhone(users[username].phone) ==> r == Err(UserNotFound(username))
  {
    if username !in users then Err(NoUserRow(username))
    else if HasPhone(users[username].phone) then Ok(users[username].phone.value)
    else Err(UserNotFound(username))
  }

  /** How `_sendTwilioMessage` reads the gateway's answer, as its doc comment
      states it: a client exception is re-thrown, status "sent" yields
      `date_sent`, any other status throws BadRequestError carrying the
      reply's `error_message` and `error_code`. */
  function TwilioOutcome(reply: Reply): (r: Result<Time, Error>)
    ensures r.Ok? <==> reply.Reply? && reply.status == "sent"
    ensures r.Ok? ==> r.value == reply.dateSent
    ensures reply.TransportError? ==> r == Err(TransportFailure(reply.reason))
    ensures reply.Reply? && reply.status != "sent" ==> r == Err(BadRequest(reply.errorMessage, reply.errorCode))
  {
    match reply
    case TransportError(reason) => Err(TransportFailure(reason))
    case Reply(status, dateSent, errorMessage, errorCode) =>
      if status == "sent" then Ok(dateSent) else Err(BadRequest(errorMessage, errorCode))
  }

  /** The same function as the code is written: the success branch reads
      `messsage.date_sent`, and `messsage` (three s) is not declared anywhere,
      so under strict mode that branch throws a ReferenceError. No reply ever
      yields a timestamp. */
  function TwilioOutcomeAsWritten(reply: Reply): (r: Result<Time, Error>)
    ensures r.Err?
    ensures reply.Reply? && reply.status == "sent" ==> r == Err(ReferenceError("messsage"))
    ensures TwilioOutcome(reply).Err? ==> r == TwilioOutcome(reply)
  {
    match reply
    case TransportError(reason) => Err(TransportFailure(reason))
    case Reply(status, dateSent, errorMessage, errorCode) =>
      if status == "sent" then Err(ReferenceError("messsage")) else Err(BadRequest(errorMessage, errorCode))
  }

  /** Every reply with status "sent", whatever its other fields, separates the
      code as written from its doc comment: the intended reading returns
      `date_sent`, the code throws. */
  lemma TypoLosesEverySentReply(reply: Reply)
    requires reply.Reply? && reply.status == "sent"
    ensures TwilioOutcome(reply) == Ok(reply.dateSent)
    ensures TwilioOutcomeAsWritten(reply) == Err(ReferenceError("messsage"))
  {
  }

  /** `_sendTwilioMessage({from, to, body})`: exactly one call to the gateway,
      whose reply decides the result. */
  method SendTwilioMessage(gw: SmsGateway, details: Sms) returns (r: Result<Time, Error>)
    modifies gw
    ensures gw.sent == old(gw.sent) + [details]
    ensures r == TwilioOutcome(gw.respond(|old(gw.sent)|, details))
  {
    var reply := gw.Deliver(details);
    r := TwilioOutcome(reply);
  }

  /** Stored message `m` was produced by gateway call number `k` of the log
      `sent`: the request went between the two users' phones with the message's
      body, and the gateway confirmed that call with the message's `sent_at`. */
  ghost predicate DeliveredBy(users: map<string, User>, m: Message, sent: seq<Sms>, k: nat, respond: Provider) {
    && k < |sent|
    && m.fromUsername in users
    && m.toUsername in users
    && users[m.fromUsername].phone == Some(sent[k].from)
    && users[m.toUsername].phone == Some(sent[k].to)
    && sent[k].body == m.body
    && TwilioOutcome(respond(k, sent[k])) == Ok(m.sentAt)
  }

  /** No message is stored that the gateway did not confirm as sent. */
  ghost predicate AllDelivered(users: map<string, User>, messages: map<int, Message>, sent: seq<Sms>, respond: Provider) {
    forall id :: id in messages ==>
      exists k: nat :: DeliveredBy(users, messages[id], sent, k, respond)
  }

  /** What `create` does, as a relation between the store and gateway log before
      the call (`messages`, `nextId`, `sent`), after it (the primed names) and
      its result, when `read` is how the gateway's reply is read: an unknown or
      phoneless sender or recipient fails before any gateway call, otherwise the
      gateway is called exactly once, and the message is inserted under a fresh
      id, with the time `read` yields, exactly when `read` yields one. */
  ghost predicate CreateEffectWith(read: Reply -> Result<Time, Error>,
                                   users: map<string, User>, messages: map<int, Message>, nextId: int, sent: seq<Sms>,
                                   respond: Provider, fromUsername: string, toUsername: string, body: string,
                                   messages': map<int, Message>, nextId': int, sent': seq<Sms>, r: Result<Created, Error>)
  {
    var fromPhone := LookupPhone(users, fromUsername);
    var toPhone := LookupPhone(users, toUsername);
    if fromPhone.Err? then
      r == Err(fromPhone.error) && messages' == messages && nextId' == nextId && sent' == sent
    else if toPhone.Err? then
      r == Err(toPhone.error) && messages' == messages && nextId' == nextId && sent' == sent
    else
      var sms := Sms(fromPhone.value, toPhone.value, body);
      var outcome := read(respond(|sent|, sms));
      && sent' == sent + [sms]
      && (outcome.Err? ==> r == Err(outcome.error) && messages' == messages && nextId' == nextId)
      && (outcome.Ok? ==>
            var m := Message(nextId, fromUsername, toUsername, body, outcome.value, None);
            && m.id !in messages
            && messages' == messages[m.id := m]
            && nextId' == nextId + 1
            && r == Ok(Created(m.id, fromUsername, toUsername, body, outcome.value)))
  }

  /** What `create` does with the gateway's reply read as intended. */
  ghost predicate CreateEffect(users: map<string, User>, messages: map<int, Message>, nextId: int, sent: seq<Sms>,
                               respond: Provider, fromUsername: string, toUsername: string, body: string,
                               messages': map<int, Message>, nextId': int, sent': seq<Sms>, r: Result<Created, Error>)
  {
    CreateEffectWith(TwilioOutcome, users, messages, nextId, sent, respond, fromUsername, toUsername, body,
                     messages', nextId', sent', r)
  }

  /** `create` as the code is written: once both users have a phone, the SMS
      goes out, yet nothing is ever stored, and a reply with status "sent"
      surfaces as the ReferenceError. This is the failure window between the
      SMS and the insert, opened by every successful send. */
  lemma TypoSendsButNeverStores(users: map<string, User>, messages: map<int, Message>, nextId: int, sent: seq<Sms>,
                                respond: Provider, fromUsername: string, toUsername: string, body: string,
                                messages': map<int, Message>, nextId': int, sent': seq<Sms>, r: Result<Created, Error>)
    requires CreateEffectWith(TwilioOutcomeAsWritten, users, messages, nextId, sent, respond, fromUsername, toUsername, body,
                              messages', nextId', sent', r)
    ensures r.Err? && messages' == messages && nextId' == nextId
    ensures LookupPhone(users, fromUsername).Ok? && LookupPhone(users, toUsername).Ok? ==>
      && sent' == sent + [Sms(LookupPhone(users, fromUsername).value, LookupPhone(users, toUsername).value, body)]
      && (respond(|sent|, sent'[|sent|]).Reply? && respond(|sent|, sent'[|sent|]).status == "sent" ==>
            r == Err(ReferenceError("messsage")))
  {
  }

  /** `Message.create({from_username, to_username, body})`: look up both phones,
      call the gateway, and insert the message only when the gateway reports it
      sent, with the gateway's `date_sent` as `sent_at`. Between the gateway
      call and the insert there is no transaction (the source says so in a
      comment); the model's insert cannot fail, so here the gap opens only in
      the code as written, as `TypoSendsButNeverStores` states. */
  method Create(db: Db, gw: SmsGateway, fromUsername: string, toUsername: string, body: string)
    returns (r: Result<Created, Error>)
    requires db.Valid()
    requires AllDelivered(db.users, db.messages, gw.sent, gw.respond)
    modifies db, gw
    ensures db.Valid()
    ensures AllDelivered(db.users, db.messages, gw.sent, gw.respond)
    ensures db.users == old(db.users)
    ensures CreateEffect(old(db.users), old(db.messages), old(db.nextId), old(gw.sent), gw.respond,
                         fromUsername, toUsername, body, db.messages, db.nextId, gw.sent, r)
  {
    var fromPhone := LookupPhone(db.users, fromUsername);
    if fromPhone.Err? {
      return Err(fromPhone.error);
    }
    var toPhone := LookupPhone(db.users, toUsername);
    if toPhone.Err? {
      return Err(toPhone.error);
    }
    var details := Sms(fromPhone.value, toPhone.value, body);
    ghost var before := gw.sent;
    var sentAt := SendTwilioMessage(gw, details);
    DeliveredOnLongerLog(db.users, db.messages, before, details, gw.respond);
    if sentAt.Err? {
      return Err(sentAt.error);
    }
    var m := Message(db.nextId, fromUsername, toUsername, body, sentAt.value, None);
    assert DeliveredBy(db.users, m, gw.sent, |before|, gw.respond);
    db.messages := db.messages[m.id := m];
    db.nextId := db.nextId + 1;
    r := Ok(Created(m.id, m.fromUsername, m.toUsername, m.body, m.sentAt));
  }

  /** `create` inserts exactly one message when it succeeds and none when it
      fails; what it returns is what it stored, and it was confirmed by the one
      gateway call just made. */
  lemma CreateInsertsExactlyOnSuccess(users: map<string, User>, messages: map<int, Message>, nextId: int, sent: seq<Sms>,
                                      respond: Provider, fromUsername: string, toUsername: string, body: string,
                                      messages': map<int, Message>, nextId': int, sent': seq<Sms>, r: Result<Created, Error>)
    requires CreateEffect(users, messages, nextId, sent, respond, fromUsername, toUsername, body, messages', nextId', sent', r)
    ensures r.Ok? <==> messages' != messages
    ensures r.Err? ==> messages' == messages && nextId' == nextId
    ensures r.Ok? ==>
      && r.value.id !in messages
      && messages'.Keys == messages.Keys + {r.value.id}
      && messages'[r.value.id] == Message(r.value.id, fromUsername, toUsername, body, r.value.sentAt, None)
      && |sent'| == |sent| + 1
      && TwilioOutcome(respond(|sent|, sent'[|sent|])) == Ok(r.value.sentAt)
  {
  }

  /** The ways `create` can fail: an unknown or phoneless user, before the
      gateway is called, or the gateway's refusal or exception, after the one
      call to it. */
  lemma CreateFailureKinds(users: map<string, User>, messages: map<int, Message>, nextId: int, sent: seq<Sms>,
                           respond: Provider, fromUsername: string, toUsername: string, body: string,
                           messages': map<int, Message>, nextId': int, sent': seq<Sms>, r: Result<Created, Error>)
    requires CreateEffect(users, messages, nextId, sent, respond, fromUsername, toUsername, body, messages', nextId', sent', r)
    requires r.Err?
    ensures r.error.NoUserRow? || r.error.UserNotFound? ==> sent' == sent
    ensures r.error.NoUserRow? || r.error.UserNotFound? || r.error.BadRequest? || r.error.TransportFailure?
    ensures r.error.BadRequest? || r.error.TransportFailure? ==>
      && |sent'| == |sent| + 1
      && TwilioOutcome(respond(|sent|, sent'[|sent|])) == Err(r.error)
  {
  }

  /** Further gateway calls keep every stored message backed. */
  lemma DeliveredOnLongerLog(users: map<string, User>, messages: map<int, Message>, sent: seq<Sms>, sms: Sms, respond: Provider)
    requires AllDelivered(users, messages, sent, respond)
    ensures AllDelivered(users, messages, sent + [sms], respond)
  {
    forall id | id in messages
      ensures exists k: nat :: DeliveredBy(users, messages[id], sent + [sms], k, respond)
    {
      var k: nat :| DeliveredBy(users, messages[id], sent, k, respond);
      assert (sent + [sms])[k] == sent[k];
      assert DeliveredBy(users, messages[id], sent + [sms], k, respond);
    }
  }

  /** The same request sent twice is two gateway calls, each confirmed with its
      own `date_sent`: two stored messages with equal sender, recipient and body
      but different `sent_at` are both backed by the log. */
  lemma ResendGetsItsOwnTime(alice: User, bob: User)
    requires alice.username == "alice" && alice.phone == Some("+1")
    requires bob.username == "bob" && bob.phone == Some("+2")
    ensures var users := map["alice" := alice, "bob" := bob];
      var messages := map[1 := Message(1, "alice", "bob", "hi", 10, None), 2 := Message(2, "alice", "bob", "hi", 20, None)];
      var respond: Provider := (k: nat, sms: Sms) => Reply("sent", 10 * (k + 1), "", "");
      AllDelivered(users, messages, [Sms("+1", "+2", "hi"), Sms("+1", "+2", "hi")], respond)
  {
    var users := map["alice" := alice, "bob" := bob];
    var messages := map[1 := Message(1, "alice", "bob", "hi", 10, None), 2 := Message(2, "alice", "bob", "hi", 20, None)];
    var respond: Provider := (k: nat, sms: Sms) => Reply("sent", 10 * (k + 1), "", "");
    var sent := [Sms("+1", "+2", "hi"), Sms("+1", "+2", "hi")];
    assert DeliveredBy(users, messages[1], sent, 0, respond);
    assert DeliveredBy(users, messages[2], sent, 1, respond);
  }

  /** `messages` after `UPDATE messages SET read_at = $now WHERE id = $1`: the
      same ids, the one row read at `now`, every other row as it was. */
  function Stamped(messages: map<int, Message>, id: int, now: Time): (r: map<int, Message>)
    requires id in messages
    ensures r.Keys == messages.Keys
    ensures r[id].readAt == Some(now)
    ensures forall other :: other in messages && other != id ==> r[other] == messages[other]
  {
    messages[id := messages[id].(readAt := Some(now))]
  }

  /** `Message.markRead(id)`: stamps `read_at` with the current time whether or
      not it was set before; an unknown id throws NotFoundError. */
  method MarkRead(db: Db, id: int, now: Time) returns (r: Result<ReadReceipt, Error>)
    requires db.Valid()
    modifies db
    ensures db.Valid()
    ensures id !in old(db.messages) ==> r == Err(MessageNotFound(id)) && unchanged(db)
    ensures id in old(db.messages) ==>
      && r == Ok(ReadReceipt(id, now))
      && db.messages == Stamped(old(db.messages), id, now)
      && db.users == old(db.users)
      && db.nextId == old(db.nextId)
  {
    if id !in db.messages {
      return Err(MessageNotFound(id));
    }
    db.messages := Stamped(db.messages, id, now);
    r := Ok(ReadReceipt(id, now));
  }

  /** Stamping leaves every other column of the stamped message as it was:
      its sender, recipient, body and `sent_at` survive being read. */
  lemma StampedChangesOnlyReadAt(messages: map<int, Message>, id: int, now: Time)
    requires id in messages
    ensures var m := Stamped(messages, id, now)[id];
      && m.id == messages[id].id && m.fromUsername == messages[id].fromUsername
      && m.toUsername == messages[id].toUsername && m.body == messages[id].body
      && m.sentAt == messages[id].sentAt
  {
  }

  /** Marking read again re-stamps: the second time wins, and no error arises
      because the id is still there. */
  lemma StampedTwice(messages: map<int, Message>, id: int, first: Time, second: Time)
    requires id in messages
    ensures id in Stamped(messages, id, first)
    ensures Stamped(Stamped(messages, id, first), id, second) == Stamped(messages, id, second)
  {
  }

  /** Marking read keeps every stored message backed by its gateway call. */
  lemma DeliveredAfterStamp(users: map<string, User>, messages: map<int, Message>, id: int, now: Time,
                            sent: seq<Sms>, respond: Provider)
    requires id in messages
    requires AllDelivered(users, messages, sent, respond)
    ensures AllDelivered(users, Stamped(messages, id, now), sent, respond)
  {
    var stamped := Stamped(messages, id, now);
    forall other | other in stamped ensures exists k: nat :: DeliveredBy(users, stamped[other], sent, k, respond) {
      var k: nat :| DeliveredBy(users, messages[other], sent, k, respond);
      assert DeliveredBy(users, stamped[other], sent, k, respond);
    }
  }

  /** Changes to `users` that insert rows or touch columns other than `phone`
      keep every stored message backed by its gateway call. */
  lemma DeliveredAfterUserChange(users: map<string, User>, users': map<string, User>, messages: map<int, Message>,
                                 sent: seq<Sms>, respond: Provider)
    requires forall name :: name in users ==> name in users' && users'[name].phone == users[name].phone
    requires AllDelivered(users, messages, sent, respond)
    ensures AllDelivered(users', messages, sent, respond)
  {
    forall id | id in messages ensures exists k: nat :: DeliveredBy(users', messages[id], sent, k, respond) {
      var k: nat :| DeliveredBy(users, messages[id], sent, k, respond);
      assert DeliveredBy(users', messages[id], sent, k, respond);
    }
  }

  /** `Message.get(id)`: the message row joined twice with `users`. A missing
      id, or a user row the JOIN does not find, leaves no result row and
      throws NotFoundError. */
  function Get(users: map<string, User>, messages: map<int, Message>, id: int): (r: Result<Detail, Error>)
    ensures r.Ok? <==> id in messages && messages[id].fromUsername in users && messages[id].toUsername in users
    ensures r.Err? ==> r.error == MessageNotFound(id)
    ensures r.Ok? ==>
      var m := messages[id];
      && r.value.id == m.id && r.value.body == m.body
      && r.value.sentAt == m.sentAt && r.value.readAt == m.readAt
      && r.value.fromUser == SummaryOf(m.fromUsername, users[m.fromUsername])
      && r.value.toUser == SummaryOf(m.toUsername, users[m.toUsername])
  {
    if id in messages && messages[id].fromUsername in users && messages[id].toUsername in users then
      var m := messages[id];
      Ok(Detail(m.id, SummaryOf(m.fromUsername, users[m.fromUsername]), SummaryOf(m.toUsername, users[m.toUsername]),
                m.body, m.sentAt, m.readAt))
    else
      Err(MessageNotFound(id))
  }

  /** With the foreign keys in place, `get` finds exactly the stored ids. */
  lemma GetFindsStored(users: map<string, User>, messages: map<int, Message>, id: int)
    requires ReferencesExist(users, messages)
    ensures Get(users, messages, id).Ok? <==> id in messages
  {
  }

  /** What `create` inserted is what `get` returns afterwards: the same id,
      users, body and `sent_at`, and no `read_at` yet. */
  lemma GetAfterInsert(users: map<string, User>, messages: map<int, Message>, m: Message)
    requires m.fromUsername in users && m.toUsername in users && m.readAt == None
    ensures var d := Get(users, messages[m.id := m], m.id);
      && d.Ok?
      && d.value.id == m.id && d.value.body == m.body && d.value.sentAt == m.sentAt
      && d.value.fromUser.username == m.fromUsername && d.value.toUser.username == m.toUsername
      && d.value.readAt == None
  {
  }
}
