# messagely: message store, SMS send pipeline and message authorization

This project models the core of message.ly, a small messaging API. Users
register with a phone number. Each message one user sends another is first
relayed as an SMS through Twilio. It is stored only when the gateway reports
it sent, and its `sent_at` is the gateway's `date_sent`. A message can be
viewed by its sender and recipient. Only its recipient can mark it read.

The model has six modules:

- `Common`: `Option`, `Result`, the error kinds the code throws, and `Time`.
  Timestamps are only stored and compared, so `Time` is an integer. Two
  parameters supply them: `now` for the database's `current_timestamp`, and
  the gateway reply's `dateSent`.
- `Tables`: the `users` and `messages` tables as two maps in one `Db` object,
  plus `nextId`, the messages id sequence. `Db.Valid()` holds the schema's
  constraints: username is the users key, ids are serial keys, and messages
  point at existing users.
- `Gateway`: the Twilio client as an `SmsGateway` object. Its reply is fixed
  by the function `respond` of the call number and the request. So each send
  gets its own `date_sent`, and a request refused once can be accepted on a
  retry. A reply is either a message
  resource (status, `date_sent`, `error_message`, `error_code`) or a client
  exception. The `sent` field logs every request made. So "the gateway was
  not called" means the log is unchanged.
- `MessageModel` (models/message.js):
  - `Create` runs the steps of `create`.
  - `AllDelivered` is an invariant. Every stored message has a logged
    gateway call between the two users' phones, with its body, that the
    gateway confirmed with its `sent_at`. `Create` keeps it. Lemmas show that
    marking read and user-row changes keep it too.
  - `MarkRead` and the read-only `Get` are also here.
- `UserModel` (models/user.js): `Register` and `UpdateLoginTimestamp` are
  methods on the store. `Authenticate`, `Get`, `All`, `MessagesFrom` and
  `MessagesTo` are functions over the tables.
- `MessageRoutes` (routes/messages.js):
  - the two guard predicates (`CanView`, `CanMarkRead`);
  - `GET /:id` as a function;
  - `POST /` and `POST /:id/read` as guarded calls into the store;
  - `SendAndReadScenario`, a client: alice sends bob "hi", a third user
    cannot see it, alice cannot mark it read, and bob can.

Where the code and its design description disagree, the model follows the code:

- An unknown username in `create` does not raise NotFoundError. The code
  reads `rows[0].phone` on an empty result (models/message.js:31, :39), which
  throws a TypeError. This is modelled as `NoUserRow`. A user whose phone is
  NULL or "" gets `UserNotFound`. Both happen before the gateway is called.
- Marking an already-read message again re-stamps `read_at` with no error.
  `read_at` is not "set at most once".
- Nothing checks for an empty body or a malformed phone before the I/O. The
  code has no such check, so there is no InvalidInput error.
- `messagesTo` gives each `from_user` a `username`, as the code builds it
  (models/user.js:146-147), not the `id` its doc comment names.
- `all` returns username, first and last name only. The users route test
  also expects `phone`.
- The success branch of `_sendTwilioMessage` reads the misspelled
  `messsage`. The model follows the doc comment: the result is the reply's
  `date_sent`. The code as written is kept beside it (see Findings).

## Model

| member | source | states |
|---|---|---|
| `Gateway.SmsGateway.Deliver` | models/message.js:72-77 | one call to the provider: the request is appended to the log and the reply is the provider's answer to that call, numbered by the calls before it |
| `MessageModel.LookupPhone` | models/message.js:26-41 | yields the phone exactly when the user exists and the phone is truthy (not NULL, not ""); an unknown user is the TypeError of `rows[0].phone`, a phoneless user is NotFound |
| `MessageModel.TwilioOutcome` | models/message.js:65-88 | succeeds exactly on status "sent", with the reply's `date_sent`; a client exception is re-thrown; any other status is BadRequest carrying the reply's `error_message` and `error_code` |
| `MessageModel.TwilioOutcomeAsWritten` | models/message.js:82-88 | the code as written never yields a timestamp: status "sent" gives the ReferenceError for `messsage`, every other reply fails as the intended version does |
| `MessageModel.TypoLosesEverySentReply` | models/message.js:84-86 | for every reply with status "sent", whatever its `error_message` and `error_code`, the intended reading returns `date_sent` and the code as written throws |
| `MessageModel.TypoSendsButNeverStores` | models/message.js:24-88 | `create` as written never stores a message and never advances the id sequence; once both users have a phone, the SMS has gone out (the log grows by that one request), and a "sent" reply comes back as the ReferenceError |
| `MessageModel.SendTwilioMessage` | models/message.js:68-89 | exactly one gateway call with the given details; the result is that call's reply read by `TwilioOutcome` |
| `MessageModel.Create` | models/message.js:24-62 | an unknown or phoneless sender, then recipient, fails with no gateway call and the store unchanged. Otherwise there is exactly one gateway call with both phones and the body. On "sent", exactly one message is inserted under the fresh id `nextId`, with the gateway's `date_sent` as `sent_at` and no `read_at`, and the returned record is the stored one. On any other reply, the gateway's error comes back and nothing is inserted. Users are never changed, and every stored message stays backed by a confirmed gateway call |
| `MessageModel.CreateInsertsExactlyOnSuccess` | models/message.js:43-61 | `create` changes the messages table exactly when it succeeds. Then it adds exactly one new id, stores exactly the returned record, and the gateway's reply to the one call just made confirmed that `sent_at` |
| `MessageModel.CreateFailureKinds` | models/message.js:24-88 | a failed `create` is a user lookup failure with no gateway call, or the gateway's refusal or exception after exactly one call, carrying that reply's error |
| `MessageModel.DeliveredOnLongerLog` | models/message.js:44-60 | further gateway calls keep every stored message backed by its confirming call |
| `MessageModel.ResendGetsItsOwnTime` | models/message.js:72-86 | the same request sent twice is two calls, each confirmed with its own `date_sent`: two stored messages with the same users and body but different `sent_at` are both backed by the log |
| `MessageModel.MarkRead` | models/message.js:93-105 | an unknown id is NotFound with the store unchanged; otherwise only that message's `read_at` becomes the current time, `{id, read_at}` is returned, and users and the id sequence are unchanged |
| `MessageModel.Stamped` | models/message.js:95-97 | the UPDATE keeps the same ids, sets the one message's `read_at` to the current time, and leaves every other message as it was |
| `MessageModel.StampedChangesOnlyReadAt` | models/message.js:94-98 | mark-read changes none of the stamped message's other columns: its id, sender, recipient, body and `sent_at` stay |
| `MessageModel.StampedTwice` | models/message.js:94-98 | marking read again finds the id and re-stamps it: the later time wins |
| `MessageModel.DeliveredAfterStamp` | models/message.js:94-98 | marking read keeps every stored message backed by its confirming gateway call |
| `MessageModel.DeliveredAfterUserChange` | models/user.js:17-63 | inserting users or changing columns other than `phone` keeps every stored message backed by its confirming gateway call |
| `MessageModel.Get` | models/message.js:115-157 | found exactly when the id exists and the JOINs find both users, otherwise NotFound. The result has the message's id, body, `sent_at` and `read_at`. `from_user` and `to_user` carry the message's usernames with the joined rows' names and phones |
| `MessageModel.GetFindsStored` | models/message.js:129-137 | with the foreign keys in place, `get` finds exactly the stored ids |
| `MessageModel.GetAfterInsert` | models/message.js:46-61 | after the insert, `get` on the new id returns the same id, users, body and `sent_at`, and no `read_at` |
| `UserModel.Register` | models/user.js:17-31 | inserts one user with the given fields, the hash of the password, and `join_at` = `last_login_at` = now, and returns `{username, password, first_name, last_name, phone}` with the hash; messages are untouched; an existing username is rejected with the store unchanged |
| `UserModel.Authenticate` | models/user.js:36-49 | false for an unknown user; otherwise exactly whether the password matches the stored hash |
| `UserModel.AuthenticateAfterRegister` | models/user.js:17-49 | a newly registered user authenticates with their password whenever the hash comparison accepts a password against its own hash |
| `UserModel.UpdateLoginTimestamp` | models/user.js:53-63 | an unknown user is NotFound with the store unchanged; otherwise only that user's `last_login_at` changes, to now, and `{username, last_login_at}` is returned |
| `UserModel.Get` | models/user.js:84-93 | found exactly when the user exists, otherwise NotFound; the result has the user's username, names, phone, `join_at` and `last_login_at`, and no password |
| `UserModel.GetAfterRegister` | models/user.js:19-28 | a newly registered user's profile has both timestamps equal to the registration time |
| `UserModel.GetAfterLoginStamp` | models/user.js:54-58 | after a login stamp the profile differs only in `last_login_at`; other users' profiles are unchanged |
| `UserModel.All` | models/user.js:68-73 | every user has an entry with their username, first and last name, and every entry is some user's |
| `UserModel.AllHasOneEntryPerUser` | models/user.js:68-73 | `all` has exactly as many entries as there are users |
| `UserModel.MessagesFrom` | models/user.js:103-125 | exactly the messages whose `from_username` is the user and whose recipient the JOIN finds. Each carries the message's own id, body, `sent_at` and `read_at`, and a `to_user` summary from the recipient's row |
| `UserModel.MessagesTo` | models/user.js:135-157 | exactly the messages whose `to_username` is the user and whose sender the JOIN finds. Each carries its own columns and a `from_user` summary (username, names, phone) from the sender's row |
| `UserModel.MessagesFromCount` | models/user.js:104-110 | with the foreign keys in place, `messagesFrom` has one entry per message the user sent |
| `UserModel.MessagesToCount` | models/user.js:136-142 | with the foreign keys in place, `messagesTo` has one entry per message the user received |
| `UserModel.OutboxMatchesInbox` | models/user.js:103-157 | each message in a sender's `messagesFrom` appears in its recipient's `messagesTo` with the same id, body and timestamps, and the sender's summary |
| `UserModel.OutboxAfterInsert` | models/user.js:103-125 | inserting a message under a fresh id adds exactly it to its sender's `messagesFrom` and changes no one else's |
| `UserModel.InboxAfterInsert` | models/user.js:135-157 | inserting a message under a fresh id adds exactly it to its recipient's `messagesTo` and changes no one else's |
| `MessageRoutes.CanView` | routes/messages.js:27-28 | the logged-in user may see a message exactly when they are its sender or its recipient |
| `MessageRoutes.CanMarkRead` | routes/messages.js:69 | the logged-in user may mark a message read exactly when they are its recipient; whoever may mark read may view, and a sender writing to someone else may not mark read |
| `MessageRoutes.ShowMessage` | routes/messages.js:21-32 | NotFound from `get` comes back before any check. A loaded message is returned unchanged when shown. A loaded message that is not shown gives Unauthorized for the logged-in user |
| `MessageRoutes.ShowMessageAuthorization` | routes/messages.js:25-31 | over a consistent store, viewing succeeds exactly when the id exists and the logged-in user is its sender or recipient. An unknown id is NotFound whoever asks. Any third user is Unauthorized |
| `MessageRoutes.GuardDecisions` | routes/messages.js:27-69 | sender and recipient may view and a third user may not. Only the recipient may mark read: neither the sender (of a message to someone else) nor a third user may. Whoever may mark read may view |
| `MessageRoutes.PostMessage` | routes/messages.js:42-50 | the message is created exactly as `create` does with the logged-in user as sender, whatever `from_username` the request body carries; a success returns `{id, from_username, to_username, body, sent_at}` with the request's `to_username` and body |
| `MessageRoutes.MarkMessageRead` | routes/messages.js:61-74 | an unknown id is NotFound; a logged-in user who is not the recipient (the sender included) is Unauthorized, and in both cases the store is unchanged; for the recipient it is exactly `markRead` |

## Left out

- The Twilio client is not modelled: no construction from environment
  variables, no network call, no credentials. `SmsGateway` stands in for it.
  Its replies are fixed by a function of the call number and the request, so
  the provider is deterministic given how many calls came before.
- `SmsGateway.Deliver` has no timeout. The code sets none.
- The `db` module and the SQL text are not modelled. Tables are maps, JOINs
  are map lookups, and a SQL error other than the username key violation
  cannot happen.
- `UserModel.All`, `UserModel.MessagesFrom`, `UserModel.MessagesTo`: these
  return sets, not arrays. They say nothing about row order, because the
  queries have no ORDER BY. Nothing else is lost: usernames and ids are
  unique.
- The failure window between the SMS and the insert (the code marks it
  "transactional problem") is not modelled for the insert itself. The model's
  insert cannot fail. The window does arise from the misspelled `messsage`,
  which `TypoSendsButNeverStores` states.
- bcrypt is not modelled: `hash` and `compare` are parameters. The random
  salt is not, so `hash` is a plain function.
- `UserModel.Register`: the database constraints on `users` other than the
  username key are not modelled. The schema is not part of this model.
- routes/auth.js is left out. Its `updateLoginTimestamp` calls are not
  awaited, which is a question of ordering and concurrency.
- Login middleware, Express routing, HTTP status codes and JSON encoding
  are left out. The logged-in user's name is a parameter, and a route's
  thrown error is its `Err` result.
- The message id in a route path is a string that Postgres casts. The model
  takes it as an integer.
- Error texts are left out. Errors carry their fields (username, id,
  `error_message`, `error_code`), not the formatted message.
- Concurrency is left out, for example two mark-read calls racing on one id.
- `console.log` calls are left out.

## Findings

| source | as written | input that shows it | evidently intended | confidence | as-written member | corrected member |
|---|---|---|---|---|---|---|
| models/message.js:85 | the success branch assigns `messsage.date_sent`; `messsage` (three s) is declared nowhere, so in strict mode it throws ReferenceError: `create` sends the SMS, then throws and never stores a message (`MessageModel.TypoSendsButNeverStores`) | a gateway reply with status "sent" | return the reply's `date_sent` as `sent_at`, as the doc comment at models/message.js:65-67 says | high; not executed | `MessageModel.TwilioOutcomeAsWritten` | `MessageModel.TwilioOutcome` |
