/** The in-memory account and mailbox store of the e-mail server, as values.

    Every store operation of the server runs as one critical section under
    the server's lock, so each is modelled here as a single function from the
    store before to the store after, together with the response it returns. */
module MailStore {

  /** An account record: the display name and the bcrypt verifier of the
      password (never the password itself). */
  datatype Account = Account(nome: string, senha: string)

  /** A delivered message. `dataHora` is the server's capture time, already
      formatted as text. */
  datatype Email = Email(remetente: string, destinatario: string, dataHora: string,
                         assunto: string, corpo: string)

  datatype Status = Success | Error

  /** The response envelopes the store and the dispatcher produce:
      `{status, message}`, the login reply `{status: success, message, nome}`
      and the receive reply `{status: success, emails}`. */
  datatype Response =
    | Reply(status: Status, message: string)
    | LoginReply(message: string, nome: string)
    | MailReply(emails: seq<Email>)
  {
    predicate Succeeded() {
      match this
      case Reply(status, _) => status == Success
      case _ => true
    }
  }

  /** The password hashing library, left uninterpreted: `hashpw(senha, salt)`
      gives a verifier, `checkpw(senha, verifier)` tells whether a password
      matches it. Nothing is assumed about either. */
  datatype Crypto = Crypto(hashpw: (string, string) -> string,
                           checkpw: (string, string) -> bool)

  const UserExists := "Usuário já existe"
  const UserRegistered := "Usuário registrado com sucesso"
  const LoginDone := "Login realizado"
  const InvalidCredentials := "Credenciais inválidas"
  const UnknownRecipient := "Destinatário inexistente"
  const EmailSent := "E-mail enviado com sucesso"

  /** The two dictionaries of the server: username to account, and username
      to the ordered list of messages waiting in that mailbox. */
  datatype Store = Store(users: map<string, Account>, emails: map<string, seq<Email>>)

  /** The store of a freshly started server. */
  const Empty := Store(map[], map[])

  /** Every registered user has a mailbox; delivery indexes the mailbox of
      any registered recipient directly. */
  ghost predicate MailboxesCover(s: Store) {
    s.users.Keys <= s.emails.Keys
  }

  /** A mailbox without an account can exist (receiving for an unknown name
      creates one), but nothing is ever delivered to it. */
  ghost predicate OrphansEmpty(s: Store) {
    forall u :: u in s.emails && u !in s.users ==> s.emails[u] == []
  }

  ghost predicate Inv(s: Store) {
    MailboxesCover(s) && OrphansEmpty(s)
  }

  /** Accounts are only ever added: every account of `s` is in `t` unchanged. */
  ghost predicate AccountsKept(s: Store, t: Store) {
    forall u :: u in s.users ==> u in t.users && t.users[u] == s.users[u]
  }

  /** Registration: a taken name is refused and nothing changes; a new name
      gets its account (with the verifier computed from the password) and an
      empty mailbox, and no other entry changes. */
  function Register(s: Store, username: string, nome: string, verifier: string): (r: (Store, Response))
    ensures r.1.Succeeded() <==> username !in s.users
    ensures username in s.users ==> r == (s, Reply(Error, UserExists))
    ensures username !in s.users ==> r.1 == Reply(Success, UserRegistered)
    ensures r.0.users.Keys == s.users.Keys + {username}
    ensures username !in s.users ==> r.0.emails.Keys == s.emails.Keys + {username}
    ensures username !in s.users ==> r.0.users[username] == Account(nome, verifier) && r.0.emails[username] == []
    ensures forall u :: u in s.users ==> r.0.users[u] == s.users[u]
    ensures forall u :: u in s.emails && u != username ==> r.0.emails[u] == s.emails[u]
  {
    if username in s.users then
      (s, Reply(Error, UserExists))
    else
      (Store(s.users[username := Account(nome, verifier)], s.emails[username := []]),
       Reply(Success, UserRegistered))
  }

  /** Login: succeeds with the display name exactly when the account exists
      and the password matches its verifier; every failure gives the same
      reply, so an unknown name and a wrong password cannot be told apart. */
  function Authenticate(s: Store, username: string, senha: string, crypto: Crypto): (r: Response)
    ensures r.Succeeded() <==> username in s.users && crypto.checkpw(senha, s.users[username].senha)
    ensures r.Succeeded() ==> r == LoginReply(LoginDone, s.users[username].nome)
    ensures !r.Succeeded() ==> r == Reply(Error, InvalidCredentials)
  {
    if username in s.users && crypto.checkpw(senha, s.users[username].senha) then
      LoginReply(LoginDone, s.users[username].nome)
    else
      Reply(Error, InvalidCredentials)
  }

  /** Delivery: refused when the recipient has no account (the sender is
      never checked); otherwise the message is appended at the end of the
      recipient's mailbox and nothing else changes. */
  function Send(s: Store, remetente: string, destinatario: string, assunto: string,
                corpo: string, now: string): (r: (Store, Response))
    requires MailboxesCover(s)
    ensures r.1.Succeeded() <==> destinatario in s.users
    ensures destinatario !in s.users ==> r == (s, Reply(Error, UnknownRecipient))
    ensures destinatario in s.users ==> r.1 == Reply(Success, EmailSent)
    ensures r.0.users == s.users && r.0.emails.Keys == s.emails.Keys
    ensures destinatario in s.users ==>
      r.0.emails[destinatario] == s.emails[destinatario] + [Email(remetente, destinatario, now, assunto, corpo)]
    ensures forall u :: u in s.emails && u != destinatario ==> r.0.emails[u] == s.emails[u]
  {
    if destinatario !in s.users then
      (s, Reply(Error, UnknownRecipient))
    else
      var email := Email(remetente, destinatario, now, assunto, corpo);
      (Store(s.users, s.emails[destinatario := s.emails[destinatario] + [email]]),
       Reply(Success, EmailSent))
  }

  /** The messages waiting for `username`, in arrival order; none when the
      name has no mailbox. */
  function Waiting(s: Store, username: string): seq<Email> {
    if username in s.emails then s.emails[username] else []
  }

  /** Receiving is a destructive drain: it returns the waiting messages in
      arrival order and leaves the mailbox empty. It never fails, and for a
      name without a mailbox it returns nothing and creates an empty one. */
  function Receive(s: Store, username: string): (r: (Store, Response))
    ensures r.1 == MailReply(Waiting(s, username))
    ensures r.0.users == s.users
    ensures r.0.emails.Keys == s.emails.Keys + {username}
    ensures r.0.emails[username] == []
    ensures forall u :: u in s.emails && u != username ==> r.0.emails[u] == s.emails[u]
  {
    (Store(s.users, s.emails[username := []]), MailReply(Waiting(s, username)))
  }

  // ----- properties relating several operations -----

  /** Each store operation keeps the store invariant. */
  lemma RegisterKeepsInv(s: Store, username: string, nome: string, verifier: string)
    requires Inv(s)
    ensures Inv(Register(s, username, nome, verifier).0)
  {
  }

  lemma SendKeepsInv(s: Store, remetente: string, destinatario: string, assunto: string,
                     corpo: string, now: string)
    requires Inv(s)
    ensures Inv(Send(s, remetente, destinatario, assunto, corpo, now).0)
  {
  }

  lemma ReceiveKeepsInv(s: Store, username: string)
    requires Inv(s)
    ensures Inv(Receive(s, username).0)
  {
  }

  /** Registering over an orphan mailbox replaces it, but since orphan
      mailboxes are always empty no message is ever lost by a registration. */
  lemma RegisterKeepsMail(s: Store, username: string, nome: string, verifier: string)
    requires Inv(s)
    ensures forall u :: u in s.emails ==> Register(s, username, nome, verifier).0.emails[u] == s.emails[u]
  {
  }

  /** The same name registered twice: the second attempt is refused and the
      account keeps the first registration's display name and verifier. */
  lemma RegisterTwice(s: Store, username: string, nome1: string, verifier1: string,
                      nome2: string, verifier2: string)
    requires username !in s.users
    ensures var (s1, r1) := Register(s, username, nome1, verifier1);
            var (s2, r2) := Register(s1, username, nome2, verifier2);
            r1.Succeeded() && r2 == Reply(Error, UserExists) &&
            s2 == s1 && s2.users[username] == Account(nome1, verifier1)
  {
  }

  /** Logging in right after registering succeeds, with the registered
      display name, exactly when the password checks against the verifier
      registration stored. */
  lemma LoginAfterRegister(s: Store, crypto: Crypto, username: string, nome: string,
                           senha: string, salt: string, attempt: string)
    requires username !in s.users
    ensures var s1 := Register(s, username, nome, crypto.hashpw(senha, salt)).0;
            var r := Authenticate(s1, username, attempt, crypto);
            (r.Succeeded() <==> crypto.checkpw(attempt, crypto.hashpw(senha, salt))) &&
            (r.Succeeded() ==> r.nome == nome)
  {
  }

  /** An unknown name and a wrong password give one and the same reply. */
  lemma LoginFailureUniform(s: Store, crypto: Crypto, unknown: string, anything: string,
                            user: string, wrong: string)
    requires unknown !in s.users
    requires user in s.users && !crypto.checkpw(wrong, s.users[user].senha)
    ensures Authenticate(s, unknown, anything, crypto) == Authenticate(s, user, wrong, crypto)
  {
  }

  /** A drain followed at once by another drain: the second returns nothing. */
  lemma ReceiveTwice(s: Store, username: string)
    ensures var s1 := Receive(s, username).0;
            Receive(s1, username).1 == MailReply([]) &&
            Receive(s1, username).0 == s1
  {
  }

  /** Two messages sent to a registered user are drained in sending order,
      after whatever was already waiting. */
  lemma SendSendReceive(s: Store, u: string, a: Email, b: Email)
    requires MailboxesCover(s) && u in s.users
    requires a.destinatario == u && b.destinatario == u
    ensures var s1 := Send(s, a.remetente, u, a.assunto, a.corpo, a.dataHora).0;
            var s2 := Send(s1, b.remetente, u, b.assunto, b.corpo, b.dataHora).0;
            Receive(s2, u).1 == MailReply(s.emails[u] + [a, b])
  {
  }
}
