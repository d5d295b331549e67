/** The server object: its two dictionaries are fields that each request
    handler updates in place, one handler at a time (every handler body runs
    under the server's lock). Each handler is proved against the store
    function of the same operation. */
module Server {
  import opened MailStore
  import opened Router

  class EmailServer {
    var users: map<string, Account>
    var emails: map<string, seq<Email>>
    /** The password hashing library the server calls. */
    const crypto: Crypto

    /** The two dictionaries as one store value. */
    function State(): Store
      reads this
    {
      Store(users, emails)
    }

    ghost predicate Valid()
      reads this
    {
      Inv(State())
    }

    constructor (crypto: Crypto)
      ensures Valid() && State() == Empty && this.crypto == crypto
    {
      this.crypto := crypto;
      users := map[];
      emails := map[];
    }

    method RegisterUser(username: string, nome: string, senha: string, salt: string)
      returns (response: Response)
      requires Valid()
      modifies this
      ensures Valid()
      ensures (State(), response) == Register(old(State()), username, nome, crypto.hashpw(senha, salt))
    {
      if username in users {
        return Reply(Error, UserExists);
      }
      var hashed := crypto.hashpw(senha, salt);
      users := users[username := Account(nome, hashed)];
      emails := emails[username := []];
      response := Reply(Success, UserRegistered);
    }

    method AuthenticateUser(username: string, senha: string) returns (response: Response)
      ensures response == Authenticate(State(), username, senha, crypto)
    {
      if username in users {
        var user := users[username];
        if crypto.checkpw(senha, user.senha) {
          return LoginReply(LoginDone, user.nome);
        }
      }
      response := Reply(Error, InvalidCredentials);
    }

    method SendEmail(remetente: string, destinatario: string, assunto: string, corpo: string,
                     now: string) returns (response: Response)
      requires Valid()
      modifies this
      ensures Valid()
      ensures (State(), response) == Send(old(State()), remetente, destinatario, assunto, corpo, now)
    {
      if destinatario !in users {
        return Reply(Error, UnknownRecipient);
      }
      var email := Email(remetente, destinatario, now, assunto, corpo);
      emails := emails[destinatario := emails[destinatario] + [email]];
      response := Reply(Success, EmailSent);
    }

    method GetEmails(username: string) returns (response: Response)
      requires Valid()
      modifies this
      ensures Valid()
      ensures (State(), response) == Receive(old(State()), username)
    {
      var waiting := if username in emails then emails[username] else [];
      emails := emails[username := []];
      response := MailReply(waiting);
    }

    /** One request of a connection, dispatched by its operation name. */
    method HandleRequest(a: Arrival) returns (response: Response)
      requires Valid()
      modifies this
      ensures Valid()
      ensures (State(), response) == Step(old(State()), crypto, a)
    {
      var request := a.request;
      response := Reply(Error, UnknownOperation);
      if request.operation == "register" {
        response := RegisterUser(request.username, request.nome, request.senha, a.salt);
      } else if request.operation == "login" {
        response := AuthenticateUser(request.username, request.senha);
      } else if request.operation == "send_email" {
        response := SendEmail(request.remetente, request.destinatario, request.assunto, request.corpo, a.now);
      } else if request.operation == "receive_emails" {
        response := GetEmails(request.username);
      } else if request.operation == "logout" {
        response := Reply(Success, LogoutDone);
      } else if request.operation == "check_connection" {
        response := Reply(Success, ServerAvailable);
      }
    }

    /** A connection: its requests are served in order, one response each,
        until the peer has nothing more to send. */
    method HandleClient(arrivals: seq<Arrival>) returns (responses: seq<Response>)
      requires Valid()
      modifies this
      ensures Valid()
      ensures (State(), responses) == Run(old(State()), crypto, arrivals)
    {
      responses := [];
      var i := 0;
      while i < |arrivals|
        invariant 0 <= i <= |arrivals|
        invariant Valid()
        invariant Run(State(), crypto, arrivals[i..]).0 == Run(old(State()), crypto, arrivals).0
        invariant responses + Run(State(), crypto, arrivals[i..]).1 == Run(old(State()), crypto, arrivals).1
      {
        ghost var before := State();
        var response := HandleRequest(arrivals[i]);
        assert arrivals[i..][1..] == arrivals[i + 1..];
        assert Run(before, crypto, arrivals[i..]) == (Run(State(), crypto, arrivals[i + 1..]).0,
                                                     [response] + Run(State(), crypto, arrivals[i + 1..]).1);
        responses := responses + [response];
        i := i + 1;
      }
      assert arrivals[i..] == [];
      assert Run(State(), crypto, arrivals[i..]) == (State(), []);
      assert responses + [] == responses;
    }
  }
}
