/** The `User` model: registration, authentication, the login timestamp, and
    the read-only queries over users and their messages. */
module UserModel {
  import opened Common
  import opened Tables

  /** What `register` returns: `{username, password, first_name, last_name, phone}`,
      the password being the stored hash. */
  datatype Registered = Registered(username: string, password: string, firstName: string, lastName: string, phone: Option<string>)

  /** What `updateLoginTimestamp` returns: `{username, last_login_at}`. */
  datatype LoginStamp = LoginStamp(username: string, lastLoginAt: Time)

  /** What `get` returns: `{username, first_name, last_name, phone, join_at, last_login_at}`. */
  datatype Profile = Profile(username: string, firstName: string, lastName: string, phone: Option<string>,
                             joinAt: Time, lastLoginAt: Time)

  /** One entry of `all`: `{username, first_name, last_name}`. */
  datatype BasicUser = BasicUser(username: string, firstName: string, lastName: string)

  /** One entry of `messagesFrom`: `{id, to_user, body, sent_at, read_at}`. */
  datatype Outgoing = Outgoing(id: int, toUser: UserSummary, body: string, sentAt: Time, readAt: Option<Time>)

  /** One entry of `messagesTo`: `{id, from_user, body, sent_at, read_at}`. */
  datatype Incoming = Incoming(id: int, fromUser: UserSummary, body: string, sentAt: Time, readAt: Option<Time>)

  /** The users row `register` inserts; `join_at` and `last_login_at` are both
      the current timestamp of the statement. */
  function NewUser(username: string, hashed: string, firstName: string, lastName: string, phone: Option<string>, now: Time): User {
    User(username, hashed, firstName, lastName, phone, now, now)
  }

  /** `User.register`: hashes the password and inserts the row. The username is
      the primary key, so inserting an existing one is rejected by the database. */
  method Register(db: Db, username: string, password: string, firstName: string, lastName: string,
                  phone: Option<string>, hash: string -> string, now: Time)
    returns (r: Result<Registered, Error>)
    requires db.Valid()
    modifies db
    ensures db.Valid()
    ensures username in old(db.users) ==> r == Err(DuplicateUser(username)) && unchanged(db)
    ensures username !in old(db.users) ==>
      && db.users == old(db.users)[username := NewUser(username, hash(password), firstName, lastName, phone, now)]
      && db.messages == old(db.messages)
      && db.nextId == old(db.nextId)
      && r == Ok(Registered(username, hash(password), firstName, lastName, phone))
  {
    var hashed := hash(password);
    if username in db.users {
      return Err(DuplicateUser(username));
    }
    db.users := db.users[username := NewUser(username, hashed, firstName, lastName, phone, now)];
    r := Ok(Registered(username, hashed, firstName, lastName, phone));
  }

  /** `User.authenticate`: false for an unknown user, otherwise whatever the
      hash comparison says about the password and the stored hash. */
  function Authenticate(users: map<string, User>, username: string, password: string,
                        compare: (string, string) -> bool): (ok: bool)
    ensures username !in users ==> !ok
    ensures username in users ==> (ok <==> compare(password, users[username].password))
  {
    username in users && compare(password, users[username].password)
  }

  /** A user just registered can log in with that password, as long as the
      comparison accepts a password against its own hash. */
  lemma AuthenticateAfterRegister(users: map<string, User>, username: string, password: string,
                                  firstName: string, lastName: string, phone: Option<string>, now: Time,
                                  hash: string -> string, compare: (string, string) -> bool)
    requires compare(password, hash(password))
    ensures Authenticate(users[username := NewUser(username, hash(password), firstName, lastName, phone, now)],
                         username, password, compare)
  {
  }

  /** `User.updateLoginTimestamp`: sets `last_login_at` of one user to the
      current timestamp; an unknown user throws NotFoundError. */
  method UpdateLoginTimestamp(db: Db, username: string, now: Time) returns (r: Result<LoginStamp, Error>)
    requires db.Valid()
    modifies db
    ensures db.Valid()
    ensures username !in old(db.users) ==> r == Err(UserNotFound(username)) && unchanged(db)
    ensures username in old(db.users) ==>
      && db.users == old(db.users)[username := old(db.users)[username].(lastLoginAt := now)]
      && db.messages == old(db.messages)
      && db.nextId == old(db.nextId)
      && r == Ok(LoginStamp(username, now))
  {
    if username !in db.users {
      return Err(UserNotFound(username));
    }
    db.users := db.users[username := db.users[username].(lastLoginAt := now)];
    r := Ok(LoginStamp(username, now));
  }

  /** `User.get`: the user's profile, never the password hash; an unknown user
      throws NotFoundError. */
  function Get(users: map<string, User>, username: string): (r: Result<Profile, Error>)
    ensures r.Ok? <==> username in users
    ensures r.Err? ==> r.error == UserNotFound(username)
    ensures r.Ok? ==>
      var u := users[username];
      && r.value.username == u.username && r.value.firstName == u.firstName
      && r.value.lastName == u.lastName && r.value.phone == u.phone
      && r.value.joinAt == u.joinAt && r.value.lastLoginAt == u.lastLoginAt
  {
    if username in users then
      var u := users[username];
      Ok(Profile(u.username, u.firstName, u.lastName, u.phone, u.joinAt, u.lastLoginAt))
    else
      Err(UserNotFound(username))
  }

  /** The profile of a user just registered: both timestamps are the
      registration time. */
  lemma GetAfterRegister(users: map<string, User>, username: string, hashed: string,
                         firstName: string, lastName: string, phone: Option<string>, now: Time)
    ensures Get(users[username := NewUser(username, hashed, firstName, lastName, phone, now)], username)
         == Ok(Profile(username, firstName, lastName, phone, now, now))
  {
  }

  /** After a login stamp, the profile shows the new `last_login_at` and is
      otherwise what it was; every other user's profile is untouched. */
  lemma GetAfterLoginStamp(users: map<string, User>, username: string, now: Time, other: string)
    requires username in users
    ensures Get(users[username := users[username].(lastLoginAt := now)], username)
         == Ok(Get(users, username).value.(lastLoginAt := now))
    ensures other != username ==>
      Get(users[username := users[username].(lastLoginAt := now)], other) == Get(users, other)
  {
  }

  /** `User.all`: username, first and last name of every user. */
  function All(users: map<string, User>): (r: set<BasicUser>)
    ensures forall name :: name in users ==>
      BasicUser(users[name].username, users[name].firstName, users[name].lastName) in r
    ensures forall b :: b in r ==>
      exists name :: name in users && b == BasicUser(users[name].username, users[name].firstName, users[name].lastName)
  {
    set name | name in users :: BasicUser(users[name].username, users[name].firstName, users[name].lastName)
  }

  /** `all` has one entry per user: usernames are a key, so no two users
      collapse into one entry. */
  lemma AllHasOneEntryPerUser(users: map<string, User>)
    requires UsersKeyed(users)
    ensures |All(users)| == |users|
  {
    var entries := All(users);
    forall name | name in users.Keys ensures exists b :: b in entries && b.username == name {
      assert BasicUser(users[name].username, users[name].firstName, users[name].lastName) in entries;
    }
    CardinalityByKey(entries, users.Keys, (b: BasicUser) => b.username);
  }


  /** `User.messagesFrom`: the messages the user sent, each with its recipient's
      summary from the JOIN on `to_username`. */
  function MessagesFrom(users: map<string, User>, messages: map<int, Message>, username: string): (r: set<Outgoing>)
    ensures forall id :: id in messages && messages[id].fromUsername == username && messages[id].toUsername in users ==>
      Outgoing(id, SummaryOf(messages[id].toUsername, users[messages[id].toUsername]),
               messages[id].body, messages[id].sentAt, messages[id].readAt) in r
    ensures forall v :: v in r ==>
      && v.id in messages
      && messages[v.id].fromUsername == username
      && messages[v.id].toUsername in users
      && v.toUser == SummaryOf(messages[v.id].toUsername, users[messages[v.id].toUsername])
      && v.body == messages[v.id].body && v.sentAt == messages[v.id].sentAt && v.readAt == messages[v.id].readAt
  {
    set id | id in messages && messages[id].fromUsername == username && messages[id].toUsername in users ::
      Outgoing(id, SummaryOf(messages[id].toUsername, users[messages[id].toUsername]),
               messages[id].body, messages[id].sentAt, messages[id].readAt)
  }

  /** `User.messagesTo`: the messages the user received, each with its sender's
      summary from the JOIN on `from_username`. The summary carries the
      username, as the code builds it. */
  function MessagesTo(users: map<string, User>, messages: map<int, Message>, username: string): (r: set<Incoming>)
    ensures forall id :: id in messages && messages[id].toUsername == username && messages[id].fromUsername in users ==>
      Incoming(id, SummaryOf(messages[id].fromUsername, users[messages[id].fromUsername]),
               messages[id].body, messages[id].sentAt, messages[id].readAt) in r
    ensures forall v :: v in r ==>
      && v.id in messages
      && messages[v.id].toUsername == username
      && messages[v.id].fromUsername in users
      && v.fromUser == SummaryOf(messages[v.id].fromUsername, users[messages[v.id].fromUsername])
      && v.body == messages[v.id].body && v.sentAt == messages[v.id].sentAt && v.readAt == messages[v.id].readAt
  {
    set id | id in messages && messages[id].toUsername == username && messages[id].fromUsername in users ::
      Incoming(id, SummaryOf(messages[id].fromUsername, users[messages[id].fromUsername]),
               messages[id].body, messages[id].sentAt, messages[id].readAt)
  }

  /** The ids of the messages a user sent. */
  function SentIds(messages: map<int, Message>, username: string): set<int> {
    set id | id in messages && messages[id].fromUsername == username
  }

  /** The ids of the messages a user received. */
  function ReceivedIds(messages: map<int, Message>, username: string): set<int> {
    set id | id in messages && messages[id].toUsername == username
  }

  /** With the foreign keys in place, `messagesFrom` lists every message the
      user sent exactly once. */
  lemma MessagesFromCount(users: map<string, User>, messages: map<int, Message>, username: string)
    requires ReferencesExist(users, messages)
    ensures |MessagesFrom(users, messages, username)| == |SentIds(messages, username)|
  {
    var views := MessagesFrom(users, messages, username);
    forall id | id in SentIds(messages, username) ensures exists v :: v in views && v.id == id {
      var m := messages[id];
      assert Outgoing(id, SummaryOf(m.toUsername, users[m.toUsername]), m.body, m.sentAt, m.readAt) in views;
    }
    CardinalityByKey(views, SentIds(messages, username), (v: Outgoing) => v.id);
  }


  /** With the foreign keys in place, `messagesTo` lists every message the user
      received exactly once. */
  lemma MessagesToCount(users: map<string, User>, messages: map<int, Message>, username: string)
    requires ReferencesExist(users, messages)
    ensures |MessagesTo(users, messages, username)| == |ReceivedIds(messages, username)|
  {
    var views := MessagesTo(users, messages, username);
    forall id | id in ReceivedIds(messages, username) ensures exists v :: v in views && v.id == id {
      var m := messages[id];
      assert Incoming(id, SummaryOf(m.fromUsername, users[m.fromUsername]), m.body, m.sentAt, m.readAt) in views;
    }
    CardinalityByKey(views, ReceivedIds(messages, username), (v: Incoming) => v.id);
  }


  /** A message in the sender's outbox is in the recipient's inbox, with the
      same id, body and timestamps. */
  lemma OutboxMatchesInbox(users: map<string, User>, messages: map<int, Message>, sender: string, v: Outgoing)
    requires sender in users
    requires v in MessagesFrom(users, messages, sender)
    ensures Incoming(v.id, SummaryOf(sender, users[sender]), v.body, v.sentAt, v.readAt)
            in MessagesTo(users, messages, v.toUser.username)
  {
  }

  /** Inserting a new message under a fresh id adds it to its sender's outbox
      and changes no other outbox. */
  lemma OutboxAfterInsert(users: map<string, User>, messages: map<int, Message>, id: int, m: Message, username: string)
    requires id !in messages
    requires m.toUsername in users
    ensures MessagesFrom(users, messages[id := m], username)
         == MessagesFrom(users, messages, username)
            + (if m.fromUsername == username
               then {Outgoing(id, SummaryOf(m.toUsername, users[m.toUsername]), m.body, m.sentAt, m.readAt)}
               else {})
  {
    var entry := Outgoing(id, SummaryOf(m.toUsername, users[m.toUsername]), m.body, m.sentAt, m.readAt);
    var after := MessagesFrom(users, messages[id := m], username);
    var before := MessagesFrom(users, messages, username);
    forall v | v in after ensures v in before || (m.fromUsername == username && v == entry) {
      if v.id != id {
        assert v in before;
      }
    }
    forall v | v in before ensures v in after {
      assert (messages[id := m])[v.id] == messages[v.id];
    }
    if m.fromUsername == username {
      assert (messages[id := m])[id] == m;
      assert entry in after;
    }
  }

  /** Inserting a new message under a fresh id adds it to its recipient's inbox
      and changes no other inbox. */
  lemma InboxAfterInsert(users: map<string, User>, messages: map<int, Message>, id: int, m: Message, username: string)
    requires id !in messages
    requires m.fromUsername in users
    ensures MessagesTo(users, messages[id := m], username)
         == MessagesTo(users, messages, username)
            + (if m.toUsername == username
               then {Incoming(id, SummaryOf(m.fromUsername, users[m.fromUsername]), m.body, m.sentAt, m.readAt)}
               else {})
  {
    var entry := Incoming(id, SummaryOf(m.fromUsername, users[m.fromUsername]), m.body, m.sentAt, m.readAt);
    var after := MessagesTo(users, messages[id := m], username);
    var before := MessagesTo(users, messages, username);
    forall v | v in after ensures v in before || (m.toUsername == username && v == entry) {
      if v.id != id {
        assert v in before;
      }
    }
    forall v | v in before ensures v in after {
      assert (messages[id := m])[v.id] == messages[v.id];
    }
    if m.toUsername == username {
      assert (messages[id := m])[id] == m;
      assert entry in after;
    }
  }
}
