# E-mail server store and dispatch, modelled in Dafny

This project models the core of a small socket e-mail server (`servidor.py`,
class `EmailServer`). The server keeps two in-memory dictionaries. `users`
maps a username to an account record: the display name (`nome`) and the
bcrypt hash of the password (`senha`). `emails` maps a username to the
ordered list of messages waiting in that mailbox. Clients send requests
naming an `operation`:

- `register` creates an account and an empty mailbox, unless the name is taken.
- `login` checks a password against the stored hash.
- `send_email` appends a message to an existing recipient's mailbox.
- `receive_emails` returns the mailbox and empties it.
- `logout`, `check_connection` and any unknown name get fixed replies.

Each handler body runs under one lock, so every operation is a single atomic
step over the two dictionaries. The model has three modules:

- `MailStore` (`store.dfy`) holds the state as a value (`Store`) and each
  operation as a function from the old store to the new store and the
  response. It also holds the store invariant and the lemmas that relate
  several operations.
- `Router` (`router.dfy`) holds the request type, one-request dispatch
  (`Step`), and a connection's request sequence served in order (`Run`). It
  also holds the lemmas about runs of requests.
- `Server` (`server.dfy`) holds the class `EmailServer`. Its `users` and
  `emails` map fields are updated in place by one method per handler. Each
  method is proved to produce exactly the store and response of the
  matching `MailStore` or `Router` function.

The invariant kept by every operation (`MailStore.Inv`) has two parts:

- Every registered user has a mailbox. Delivery depends on this: it indexes
  the recipient's mailbox directly.
- A mailbox without an account is always empty.

The converse of the first part does not hold: a mailbox can exist without
an account, because `get_emails` stores an empty list under any username it
is given, including one never registered (`servidor.py:115-116`).
`MailStore.Receive` states that the drained name always ends up with a
mailbox. What does hold is the weaker second part of the invariant, and
`MailStore.RegisterKeepsMail` shows that, because of it, a later
registration over such an orphan mailbox loses no message.

The server does not validate requests: there is no reply for a malformed
request or a missing field, and the model has none either.

## Model

| member | source | states |
|---|---|---|
| `MailStore.Register` | servidor.py:63-76 | A taken name gives "Usuário já existe" and leaves the store unchanged. A new name gets its account (with the given `nome` and the verifier) and an empty mailbox, and succeeds. The only key added is that name, and every earlier account and every other mailbox is unchanged. |
| `MailStore.RegisterKeepsInv` | servidor.py:73-75 | Registration keeps the store invariant: every user has a mailbox, and mailboxes without an account are empty. |
| `MailStore.RegisterKeepsMail` | servidor.py:75 | Given the invariant, no mailbox content is lost by a registration, including one that replaces an orphan mailbox. |
| `MailStore.RegisterTwice` | servidor.py:69-74 | The same name registered twice: the first call succeeds, the second is refused and changes nothing, and the account keeps the first display name and verifier. |
| `MailStore.Authenticate` | servidor.py:78-87 | Login succeeds if and only if the account exists and `checkpw` accepts the password against its stored verifier. On success it returns "Login realizado" with the account's `nome`. Every failure is the same "Credenciais inválidas" reply. |
| `MailStore.LoginFailureUniform` | servidor.py:84-87 | An unknown username and a wrong password for a known user get identical replies. |
| `MailStore.LoginAfterRegister` | servidor.py:73-86 | Right after registering, a login succeeds, returning the registered name, if and only if `checkpw` accepts the attempt against the verifier `hashpw` produced at registration. |
| `MailStore.Send` | servidor.py:89-108 | An unknown recipient gives "Destinatário inexistente" and no change. The sender is never checked. For a known recipient, exactly one message with the given sender, recipient, subject, body and time is appended at the end of the recipient's mailbox. `users` and every other mailbox are unchanged. |
| `MailStore.SendKeepsInv` | servidor.py:96-108 | Delivery keeps the store invariant. |
| `MailStore.Receive` | servidor.py:110-117 | Returns the mailbox in arrival order, or nothing when the name has no mailbox. The name's mailbox becomes empty (it is created if absent). `users` and every other mailbox are unchanged. |
| `MailStore.ReceiveKeepsInv` | servidor.py:114-117 | Receiving keeps the store invariant, although it may create a mailbox without an account. |
| `MailStore.ReceiveTwice` | servidor.py:114-117 | A second receive immediately after a first returns nothing and changes nothing. |
| `MailStore.SendSendReceive` | servidor.py:100-117 | Two messages sent to a registered user are received in sending order, after whatever was already waiting. |
| `Router.Step` | servidor.py:43-57 | `register`, `login`, `send_email` and `receive_emails` give exactly the store and reply of `Register` (with the password hashed under the request's salt), `Authenticate`, `Send` (stamped with the request's time) and `Receive`. Dispatch keeps the invariant and never alters or removes an account. Any operation other than the four store operations leaves the store unchanged. `logout` and `check_connection` get their fixed success replies, and any other unknown name gets "Operação desconhecida". `login` never changes the store. |
| `Router.Run` | servidor.py:36-59 | Serving a connection's requests in order keeps the invariant and yields exactly one response per request; `Router.RunAt` says which response answers which request. |
| `Router.RunAppend` | servidor.py:37-59 | Serving two request sequences one after the other on a connection is serving their concatenation: the second starts from the store the first leaves, and the responses come in request order. |
| `Router.RunAt` | servidor.py:37-59 | The i-th response is `Step`'s reply to the i-th request in the store the earlier requests left, and the store after it is the one that step produces. |
| `Router.RunKeepsAccounts` | servidor.py:69-76 | No sequence of requests overwrites or removes an existing account. |
| `Router.SendsAccumulate` | servidor.py:96-108 | A run of sends to a registered user loses no message. The mailbox ends as its old content followed by every sent message in order, so its length grows by the number of sends, and every send succeeds. |
| `Router.EndToEnd` | servidor.py:43-117 | From a fresh server: alice and bob register, alice sends bob "Hi"/"hello", and bob receives exactly that message. A second receive gets nothing. |
| `Server.EmailServer.constructor` | servidor.py:12-19 | A new server has no users and no mailboxes and satisfies the invariant. |
| `Server.EmailServer.RegisterUser` | servidor.py:63-76 | The in-place update of both dictionaries, after hashing the password with the given salt, yields exactly `MailStore.Register`'s store and response. It keeps the invariant. |
| `Server.EmailServer.AuthenticateUser` | servidor.py:78-87 | The lookup returns exactly `MailStore.Authenticate`'s reply and changes nothing. |
| `Server.EmailServer.SendEmail` | servidor.py:89-108 | The in-place append yields exactly `MailStore.Send`'s store and response. It keeps the invariant. |
| `Server.EmailServer.GetEmails` | servidor.py:110-117 | The in-place drain yields exactly `MailStore.Receive`'s store and response. It keeps the invariant. |
| `Server.EmailServer.HandleRequest` | servidor.py:42-59 | The if/elif chain on the operation name yields exactly `Router.Step`'s store and response. |
| `Server.EmailServer.HandleClient` | servidor.py:34-61 | The connection loop answers each request in turn. It ends with exactly `Router.Run`'s store and response sequence, and keeps the invariant. |

## Left out

- Sockets: listening, accepting, the 4096-byte read, the end-of-connection test on empty data, and closing. A connection is modelled as the finite sequence of requests the peer sends.
- `start` and `stop`, and the `running` flag that the connection loop also tests. A stop during a connection is not modelled.
- Threads and the lock. Each locked handler body is one atomic method. Interleavings between connections are not modelled, and neither is `authenticate_user` returning its failure reply after releasing the lock.
- bcrypt: `hashpw`, `gensalt` and `checkpw` are uninterpreted function values (`MailStore.Crypto`), and the generated salt is an input of each request. Nothing is claimed about their cryptographic behaviour.
- The clock: the formatted `datetime.now()` text is an input of each request.
- JSON decoding and encoding: requests and responses are datatypes. A response's status is `Reply.status` for plain replies and is always success for the login and mail replies.
- Missing request fields: every field is a given string. In the code, a missing field reads as `None`. A missing password raises, which ends the connection, but only where the password is used: registering a name that is free (a taken name is refused before the password is read), or logging in to a name that has an account (an unknown name gets "Credenciais inválidas"). A missing username is stored under the key `None`. Neither case is modelled.
- The terminal client (`cliente.py`) is presentation and I/O and is not part of this model.
