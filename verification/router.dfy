/** Operation dispatch of the e-mail server: one request picks one store
    operation by its `operation` name, and a connection is served by
    dispatching its requests one after another. */
module Router {
  import opened MailStore

  /** A decoded request. `operation` selects the handler; the other fields
      are the request's values for the keys of the same name, of which each
      handler reads only its own. */
  datatype Request = Request(operation: string, username: string, nome: string, senha: string,
                             remetente: string, destinatario: string, assunto: string, corpo: string)

  /** A request as the server serves it, with the two values the server
      draws from its environment meanwhile: the salt the hashing library
      generates (used by `register`) and the formatted current time (used by
      `send_email`). */
  datatype Arrival = Arrival(request: Request, salt: string, now: string)

  const LogoutDone := "Logout realizado com sucesso"
  const ServerAvailable := "Servidor disponível"
  const UnknownOperation := "Operação desconhecida"

  /** The operation names that reach a store operation. */
  const StoreOperations := {"register", "login", "send_email", "receive_emails"}

  /** Dispatch of one request, as one atomic step over the store. */
  function Step(s: Store, crypto: Crypto, a: Arrival): (r: (Store, Response))
    requires Inv(s)
    ensures Inv(r.0)
    ensures AccountsKept(s, r.0)
    ensures a.request.operation !in StoreOperations ==> r.0 == s
    ensures a.request.operation == "logout" ==> r.1 == Reply(Success, LogoutDone)
    ensures a.request.operation == "check_connection" ==> r.1 == Reply(Success, ServerAvailable)
    ensures a.request.operation !in StoreOperations + {"logout", "check_connection"} ==>
      r.1 == Reply(Error, UnknownOperation)
    ensures a.request.operation == "register" ==>
      r == Register(s, a.request.username, a.request.nome, crypto.hashpw(a.request.senha, a.salt))
    ensures a.request.operation == "login" ==>
      r == (s, Authenticate(s, a.request.username, a.request.senha, crypto))
    ensures a.request.operation == "send_email" ==>
      r == Send(s, a.request.remetente, a.request.destinatario, a.request.assunto, a.request.corpo, a.now)
    ensures a.request.operation == "receive_emails" ==> r == Receive(s, a.request.username)
  {
    var req := a.request;
    if req.operation == "register" then
      RegisterKeepsInv(s, req.username, req.nome, crypto.hashpw(req.senha, a.salt));
      Register(s, req.username, req.nome, crypto.hashpw(req.senha, a.salt))
    else if req.operation == "login" then
      (s, Authenticate(s, req.username, req.senha, crypto))
    else if req.operation == "send_email" then
      SendKeepsInv(s, req.remetente, req.destinatario, req.assunto, req.corpo, a.now);
      Send(s, req.remetente, req.destinatario, req.assunto, req.corpo, a.now)
    else if req.operation == "receive_emails" then
      ReceiveKeepsInv(s, req.username);
      Receive(s, req.username)
    else if req.operation == "logout" then
      (s, Reply(Success, LogoutDone))
    else if req.operation == "check_connection" then
      (s, Reply(Success, ServerAvailable))
    else
      (s, Reply(Error, UnknownOperation))
  }

  /** A connection's requests served in order: the final store and one
      response per request. */
  function Run(s: Store, crypto: Crypto, arrivals: seq<Arrival>): (r: (Store, seq<Response>))
    requires Inv(s)
    ensures Inv(r.0)
    ensures |r.1| == |arrivals|
    decreases |arrivals|
  {
    if arrivals == [] then
      (s, [])
    else
      var (s1, response) := Step(s, crypto, arrivals[0]);
      var (s2, responses) := Run(s1, crypto, arrivals[1..]);
      (s2, [response] + responses)
  }

  /** Serving `first` and then `rest` on one connection is serving their
      concatenation: the second part starts from the store the first leaves,
      and the responses come in request order. */
  lemma {:induction false} RunAppend(s: Store, crypto: Crypto, first: seq<Arrival>, rest: seq<Arrival>)
    requires Inv(s)
    ensures var (s1, rs1) := Run(s, crypto, first);
            var (s2, rs2) := Run(s1, crypto, rest);
            Run(s, crypto, first + rest) == (s2, rs1 + rs2)
    decreases |first|
  {
    if first == [] {
      assert first + rest == rest;
      assert Run(s, crypto, first) == (s, []);
      assert [] + Run(s, crypto, rest).1 == Run(s, crypto, rest).1;
    } else {
      var (s1, r) := Step(s, crypto, first[0]);
      RunAppend(s1, crypto, first[1..], rest);
      assert (first + rest)[0] == first[0];
      assert (first + rest)[1..] == first[1..] + rest;
      var rs1 := Run(s1, crypto, first[1..]).1;
      var rs2 := Run(Run(s1, crypto, first[1..]).0, crypto, rest).1;
      assert [r] + (rs1 + rs2) == ([r] + rs1) + rs2;
    }
  }

  /** The i-th response answers the i-th request, in the store the requests
      before it left; after it the store is what that step leaves. */
  lemma RunAt(s: Store, crypto: Crypto, arrivals: seq<Arrival>, i: nat)
    requires Inv(s) && i < |arrivals|
    ensures var before := Run(s, crypto, arrivals[..i]).0;
            Run(s, crypto, arrivals).1[i] == Step(before, crypto, arrivals[i]).1 &&
            Run(s, crypto, arrivals[..i + 1]).0 == Step(before, crypto, arrivals[i]).0
  {
    var before := Run(s, crypto, arrivals[..i]).0;
    RunAppend(s, crypto, arrivals[..i], arrivals[i..]);
    assert arrivals[..i] + arrivals[i..] == arrivals;
    assert arrivals[i..][1..] == arrivals[i + 1..];
    RunAppend(s, crypto, arrivals[..i], [arrivals[i]]);
    assert arrivals[..i] + [arrivals[i]] == arrivals[..i + 1];
    assert [arrivals[i]][1..] == [];
  }

  /** No sequence of requests overwrites or removes an account. */
  lemma {:induction false} RunKeepsAccounts(s: Store, crypto: Crypto, arrivals: seq<Arrival>)
    requires Inv(s)
    ensures AccountsKept(s, Run(s, crypto, arrivals).0)
    decreases |arrivals|
  {
    if arrivals != [] {
      var s1 := Step(s, crypto, arrivals[0]).0;
      RunKeepsAccounts(s1, crypto, arrivals[1..]);
    }
  }

  /** A request that sends `m`, field by field. */
  ghost predicate Delivers(arrival: Arrival, m: Email) {
    && arrival.request.operation == "send_email"
    && arrival.request.remetente == m.remetente
    && arrival.request.destinatario == m.destinatario
    && arrival.request.assunto == m.assunto
    && arrival.request.corpo == m.corpo
    && arrival.now == m.dataHora
  }

  /** No delivery is lost: a run of sends to a registered user leaves that
      user's mailbox holding what it held before followed by every message
      sent, in sending order, so its length grows by the number of sends. */
  lemma {:induction false} SendsAccumulate(s: Store, crypto: Crypto, u: string,
                                           arrivals: seq<Arrival>, sent: seq<Email>)
    requires Inv(s) && u in s.users
    requires |arrivals| == |sent|
    requires forall i :: 0 <= i < |arrivals| ==> sent[i].destinatario == u && Delivers(arrivals[i], sent[i])
    ensures u in Run(s, crypto, arrivals).0.emails
    ensures Run(s, crypto, arrivals).0.emails[u] == s.emails[u] + sent
    ensures |Run(s, crypto, arrivals).0.emails[u]| == |s.emails[u]| + |arrivals|
    ensures forall r :: r in Run(s, crypto, arrivals).1 ==> r == Reply(Success, EmailSent)
    decreases |arrivals|
  {
    if arrivals != [] {
      assert Delivers(arrivals[0], sent[0]);
      var s1 := Step(s, crypto, arrivals[0]).0;
      assert s1.emails[u] == s.emails[u] + [sent[0]];
      SendsAccumulate(s1, crypto, u, arrivals[1..], sent[1..]);
      assert s.emails[u] + [sent[0]] + sent[1..] == s.emails[u] + sent;
    }
  }

  /** A request whose display name is its username (the only request here
      that reads it is a registration). */
  function Ask(operation: string, username: string, senha: string, remetente: string,
               destinatario: string, assunto: string, corpo: string): Request
  {
    Request(operation, username, username, senha, remetente, destinatario, assunto, corpo)
  }

  /** From a fresh server: alice and bob register, alice sends bob a message,
      bob receives exactly that message, and a second receive gets nothing. */
  lemma EndToEnd(crypto: Crypto, salt: string, now: string)
    ensures var arrivals := [
              Arrival(Ask("register", "alice", "pa", "", "", "", ""), salt, now),
              Arrival(Ask("register", "bob", "pb", "", "", "", ""), salt, now),
              Arrival(Ask("send_email", "", "", "alice", "bob", "Hi", "hello"), salt, now),
              Arrival(Ask("receive_emails", "bob", "", "", "", "", ""), salt, now),
              Arrival(Ask("receive_emails", "bob", "", "", "", "", ""), salt, now)];
            Run(Empty, crypto, arrivals).1 == [
              Reply(Success, UserRegistered),
              Reply(Success, UserRegistered),
              Reply(Success, EmailSent),
              MailReply([Email("alice", "bob", now, "Hi", "hello")]),
              MailReply([])]
  {
    var arrivals := [
      Arrival(Ask("register", "alice", "pa", "", "", "", ""), salt, now),
      Arrival(Ask("register", "bob", "pb", "", "", "", ""), salt, now),
      Arrival(Ask("send_email", "", "", "alice", "bob", "Hi", "hello"), salt, now),
      Arrival(Ask("receive_emails", "bob", "", "", "", "", ""), salt, now),
      Arrival(Ask("receive_emails", "bob", "", "", "", "", ""), salt, now)];
    var s1 := Step(Empty, crypto, arrivals[0]).0;
    var s2 := Step(s1, crypto, arrivals[1]).0;
    var s3 := Step(s2, crypto, arrivals[2]).0;
    var s4 := Step(s3, crypto, arrivals[3]).0;
    assert "bob" in s2.users;
    assert s3.emails["bob"] == [Email("alice", "bob", now, "Hi", "hello")];
    assert Run(s4, crypto, arrivals[4..]).1 == [MailReply([])] by {
      assert arrivals[4..][1..] == [];
    }
    assert Run(s3, crypto, arrivals[3..]).1 == [MailReply(s3.emails["bob"]), MailReply([])] by {
      assert arrivals[3..][1..] == arrivals[4..];
    }
    assert Run(s2, crypto, arrivals[2..]).1[0] == Reply(Success, EmailSent) by {
      assert arrivals[2..][1..] == arrivals[3..];
    }
    assert Run(s1, crypto, arrivals[1..]).1[1..] == Run(s2, crypto, arrivals[2..]).1 by {
      assert arrivals[1..][1..] == arrivals[2..];
    }
  }
}
