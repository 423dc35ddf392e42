/** The message routes: `GET /:id`, `POST /` and `POST /:id/read`. Each takes
    the logged-in user's username (`res.locals.user.username`) as `principal`;
    login itself, routing and JSON responses are outside the model. */
module MessageRoutes {
  import opened Common
  import opened Tables
  import opened Gateway
  import opened MessageModel
  import UserModel

  /** The check in `GET /:id`: the logged-in user is the message's recipient or sender. */
  predicate CanView(principal: string, d: Detail): (allowed: bool)
    ensures allowed <==> principal in {d.fromUser.username, d.toUser.username}
  {
    d.toUser.username == principal || d.fromUser.username == principal
  }

  /** The check in `POST /:id/read`: only the recipient may mark a message read,
      so the right to mark read is narrower than the right to view. */
  predicate CanMarkRead(principal: string, d: Detail): (allowed: bool)
    ensures allowed ==> CanView(principal, d)
    ensures allowed <==> principal == d.toUser.username
    ensures principal == d.fromUser.username && d.fromUser.username != d.toUser.username ==> !allowed
  {
    d.toUser.username == principal
  }

  /** `GET /:id`: load the message (NotFoundError comes first), then show it
      only to its sender or recipient. */
  function ShowMessage(users: map<string, User>, messages: map<int, Message>, id: int, principal: string)
    : (r: Result<Detail, Error>)
    ensures Get(users, messages, id).Err? ==> r == Get(users, messages, id)
    ensures r.Ok? ==> Get(users, messages, id) == r
    ensures Get(users, messages, id).Ok? && r.Err? ==> r == Err(Unauthorized(principal))
  {
    var loaded := Get(users, messages, id);
    if loaded.Err? then loaded
    else if CanView(principal, loaded.value) then loaded
    else Err(Unauthorized(principal))
  }

  /** Over a consistent store, `GET /:id` succeeds exactly when the id exists and
      the logged-in user is its sender or recipient; an unknown id is NotFound
      whoever asks, and anyone else is Unauthorized. */
  lemma ShowMessageAuthorization(users: map<string, User>, messages: map<int, Message>, id: int, principal: string)
    requires ReferencesExist(users, messages)
    ensures id !in messages ==> ShowMessage(users, messages, id, principal) == Err(MessageNotFound(id))
    ensures id in messages ==>
      var allowed := principal == messages[id].fromUsername || principal == messages[id].toUsername;
      ShowMessage(users, messages, id, principal).Ok? <==> allowed
    ensures id in messages && principal != messages[id].fromUsername && principal != messages[id].toUsername ==>
      ShowMessage(users, messages, id, principal) == Err(Unauthorized(principal))
  {
  }

  /** Sender and recipient may view, a third user may not; only the recipient
      may mark read, so a sender writing to someone else may not. */
  lemma GuardDecisions(d: Detail, third: string)
    requires third != d.fromUser.username && third != d.toUser.username
    ensures CanView(d.fromUser.username, d) && CanView(d.toUser.username, d) && !CanView(third, d)
    ensures CanMarkRead(d.toUser.username, d) && !CanMarkRead(third, d)
    ensures d.fromUser.username != d.toUser.username ==> !CanMarkRead(d.fromUser.username, d)
    ensures forall p :: CanMarkRead(p, d) ==> CanView(p, d)
  {
  }

  /** The JSON body of `POST /`. The handler reads only `to_username` and `body`;
      a `from_username` sent along is ignored. */
  datatype PostRequest = PostRequest(toUsername: string, body: string, fromUsername: Option<string>)

  /** `POST /`: send a message from the logged-in user; the sender is never
      taken from the request. */
  method PostMessage(db: Db, gw: SmsGateway, principal: string, request: PostRequest)
    returns (r: Result<Created, Error>)
    requires db.Valid()
    requires AllDelivered(db.users, db.messages, gw.sent, gw.respond)
    modifies db, gw
    ensures db.Valid()
    ensures AllDelivered(db.users, db.messages, gw.sent, gw.respond)
    ensures db.users == old(db.users)
    ensures CreateEffect(old(db.users), old(db.messages), old(db.nextId), old(gw.sent), gw.respond,
                         principal, request.toUsername, request.body, db.messages, db.nextId, gw.sent, r)
    ensures r.Ok? ==>
      && r.value.fromUsername == principal
      && r.value.toUsername == request.toUsername
      && r.value.body == request.body
  {
    r := Create(db, gw, principal, request.toUsername, request.body);
  }

  /** `POST /:id/read`: load the message (NotFoundError comes first), then mark
      it read only for its recipient; anyone else gets Unauthorized and the
      store is left as it was. */
  method MarkMessageRead(db: Db, principal: string, id: int, now: Time) returns (r: Result<ReadReceipt, Error>)
    requires db.Valid()
    modifies db
    ensures db.Valid()
    ensures id !in old(db.messages) ==> r == Err(MessageNotFound(id)) && unchanged(db)
    ensures id in old(db.messages) && principal != old(db.messages)[id].toUsername ==>
      r == Err(Unauthorized(principal)) && unchanged(db)
    ensures id in old(db.messages) && principal == old(db.messages)[id].toUsername ==>
      && r == Ok(ReadReceipt(id, now))
      && db.messages == Stamped(old(db.messages), id, now)
      && db.users == old(db.users)
      && db.nextId == old(db.nextId)
  {
    var loaded := Get(db.users, db.messages, id);
    if loaded.Err? {
      return Err(loaded.error);
    }
    if CanMarkRead(principal, loaded.value) {
      r := MarkRead(db, id, now);
    } else {
      r := Err(Unauthorized(principal));
    }
  }

  /** Two registered users, a gateway that confirms every message at time 7:
      alice's message reaches bob's inbox, bob can mark it read, alice cannot,
      and a third user can see nothing. */
  method SendAndReadScenario(hash: string -> string) {
    var db := new Db();
    var alice := UserModel.Register(db, "alice", "pw1", "Alice", "A", Some("+15551112222"), hash, 1);
    var bob := UserModel.Register(db, "bob", "pw2", "Bob", "B", Some("+15553334444"), hash, 2);
    assert alice.Ok? && bob.Ok?;
    var gw := new SmsGateway((k: nat, sms: Sms) => Reply("sent", 7, "", ""));
    var posted := PostMessage(db, gw, "alice", PostRequest("bob", "hi", Some("mallory")));
    assert posted == Ok(Created(1, "alice", "bob", "hi", 7));
    assert db.messages[1] == Message(1, "alice", "bob", "hi", 7, None);
    assert ShowMessage(db.users, db.messages, 1, "carol") == Err(Unauthorized("carol"));
    var byAlice := MarkMessageRead(db, "alice", 1, 8);
    assert byAlice == Err(Unauthorized("alice"));
    var byBob := MarkMessageRead(db, "bob", 1, 9);
    assert byBob == Ok(ReadReceipt(1, 9));
    assert db.messages[1].readAt == Some(9);
  }
}
