/** The two database tables, `users` and `messages`, as maps held by one store
    object, and the integrity constraints the schema enforces. */
module Tables {
  import opened Common

  /** A row of `users`; `password` holds the password hash. */
  datatype User = User(
    username: string,
    password: string,
    firstName: string,
    lastName: string,
    phone: Option<string>,
    joinAt: Time,
    lastLoginAt: Time)

  /** A row of `messages`; `readAt` is NULL until the message is marked read. */
  datatype Message = Message(
    id: int,
    fromUsername: string,
    toUsername: string,
    body: string,
    sentAt: Time,
    readAt: Option<Time>)

  /** `{username, first_name, last_name, phone}`, the user embedded in message views. */
  datatype UserSummary = UserSummary(username: string, firstName: string, lastName: string, phone: Option<string>)

  /** The summary a JOIN builds: the username as the message row names it, the
      other columns from the joined users row. */
  function SummaryOf(username: string, u: User): UserSummary {
    UserSummary(username, u.firstName, u.lastName, u.phone)
  }

  /** `username` is the primary key of `users`. */
  ghost predicate UsersKeyed(users: map<string, User>) {
    forall name :: name in users ==> users[name].username == name
  }

  /** `id` is a serial primary key of `messages`; every id handed out is below `nextId`. */
  ghost predicate MessagesKeyed(messages: map<int, Message>, nextId: int) {
    forall id :: id in messages ==> 1 <= id < nextId && messages[id].id == id
  }

  /** `from_username` and `to_username` are foreign keys into `users`. */
  ghost predicate ReferencesExist(users: map<string, User>, messages: map<int, Message>) {
    forall id :: id in messages ==> messages[id].fromUsername in users && messages[id].toUsername in users
  }

  /** The database: both tables and the next value of the messages id sequence. */
  class Db {
    var users: map<string, User>
    var messages: map<int, Message>
    var nextId: int

    ghost predicate Valid()
      reads this
    {
      && 1 <= nextId
      && UsersKeyed(users)
      && MessagesKeyed(messages, nextId)
      && ReferencesExist(users, messages)
    }

    /** An empty database. */
    constructor ()
      ensures Valid()
      ensures users == map[] && messages == map[] && nextId == 1
    {
      users := map[];
      messages := map[];
      nextId := 1;
    }
  }
}
