/** Agreement of the handshake over every trace: any number of clients and servers, and a network
    that delivers whatever it likes, as long as no honest signature is forged. */
module Agreement {
  import opened Common
  import opened Protocol
  import opened Handshake

  datatype ClientRun = ClientRun(me: Identity, peer: Identity, secret: nat, nonce: Bytes, hello: Payload,
      accepted: Option<(Payload, Bytes)>)

  datatype ServerRun = ServerRun(me: Identity, secret: nat, nonce: Bytes, clientHello: Payload, parts: Parts,
      answer: Payload)

  /** `log` holds every byte string signed under the handshake's domain, with the key that signed it. */
  datatype World = World(clients: seq<ClientRun>, servers: seq<ServerRun>, log: set<(string, Bytes)>)

  datatype Event =
    | Connect(me: Identity, peer: Identity, secret: nat, nonce: Bytes)
    | Serve(me: Identity, trusted: (string, string) -> bool, hello: Json, secret: nat, nonce: Bytes)
    | Finish(i: nat, reply: Json)

  const NOBODY: (string, string) -> bool := (_, _) => false

  const NOTHING := World([], [], {})

  function Signer(p: Payload): string { if Field(p, "identity_key").Str? then Field(p, "identity_key").s else "" }

  function KeyOf(c: Crypto, run: ServerRun): Result<Bytes, HandshakeError> {
    ServerKey(c, run.secret, run.nonce, run.parts, run.clientHello, run.answer)
  }

  /** Ideal signatures: what verifies under an honest key was signed with it. */
  ghost predicate Genuine(c: Crypto, log: set<(string, Bytes)>, honest: set<string>, message: Json) {
    message.Obj? ==>
      forall key :: key in honest && SignedBy(c, message.fields, key) ==> (key, SignedBytes(c, message.fields)) in log
  }

  /** Nonces are fresh, as 32 random bytes are. */
  ghost predicate Enabled(c: Crypto, w: World, honest: set<string>, e: Event) {
    match e
    case Connect(_, _, _, nonce) =>
      |nonce| == HANDSHAKE_NONCE_BYTES && forall i :: 0 <= i < |w.clients| ==> w.clients[i].nonce != nonce
    case Serve(_, _, hello, _, nonce) => |nonce| == HANDSHAKE_NONCE_BYTES && Genuine(c, w.log, honest, hello)
    case Finish(i, reply) =>
      i < |w.clients| && w.clients[i].accepted.None? && Genuine(c, w.log, honest, reply)
  }

  function AfterReply(c: Crypto, run: ClientRun, reply: Json): ClientRun {
    match ClientAccept(c, run.me, run.peer, run.secret, run.nonce, reply)
    case Err(_) => run
    case Ok(session) => if reply.Obj? then run.(accepted := Some((reply.fields, session.key))) else run
  }

  function Step(c: Crypto, w: World, e: Event): World
    requires e.Finish? ==> e.i < |w.clients|
  {
    match e
    case Connect(me, peer, secret, nonce) =>
      var hello := ClientHello(c, me, secret, nonce);
      w.(clients := w.clients + [ClientRun(me, peer, secret, nonce, hello, None)],
         log := w.log + {(me.key, SignedBytes(c, hello))})
    case Serve(me, trusted, hello, secret, nonce) =>
      (match ServerAnswer(c, me, trusted, secret, nonce, hello)
       case Err(_) => w
       case Ok(answer) =>
         if !hello.Obj? || ValidateHello(c, hello, "client").Err? then w
         else
           w.(servers := w.servers + [ServerRun(me, secret, nonce, hello.fields,
                                                ValidateHello(c, hello, "client").value, answer)],
              log := w.log + {(me.key, SignedBytes(c, answer))}))
    case Finish(i, reply) => w.(clients := w.clients[i := AfterReply(c, w.clients[i], reply)])
  }

  // ---- what the trace keeps

  ghost predicate ByClient(c: Crypto, clients: seq<ClientRun>, key: string, message: Bytes) {
    exists i :: 0 <= i < |clients| && clients[i].me.key == key && message == SignedBytes(c, clients[i].hello)
  }

  ghost predicate ByServer(c: Crypto, servers: seq<ServerRun>, key: string, message: Bytes) {
    exists j :: 0 <= j < |servers| && servers[j].me.key == key && message == SignedBytes(c, servers[j].answer)
  }

  ghost predicate Logged(c: Crypto, clients: seq<ClientRun>, servers: seq<ServerRun>, e: (string, Bytes)) {
    ByClient(c, clients, e.0, e.1) || ByServer(c, servers, e.0, e.1)
  }

  ghost predicate LogOk(c: Crypto, w: World) {
    forall e :: e in w.log ==> Logged(c, w.clients, w.servers, e)
  }

  /** The two hellos agree in everything that is signed. */
  predicate SameSigned(p: Payload, q: Payload) { p - {"signature"} == q - {"signature"} }

  /** The server run answers exactly this client run, under the peer's identity. */
  predicate Answers(client: ClientRun, server: ServerRun) {
    && server.me == client.peer && server.clientHello == client.hello
    && client.accepted.Some? && SameSigned(client.accepted.value.0, server.answer)
  }

  ghost predicate Answered(client: ClientRun, servers: seq<ServerRun>) {
    client.accepted.Some? ==> exists j :: 0 <= j < |servers| && Answers(client, servers[j])
  }

  ghost predicate Asked(server: ServerRun, clients: seq<ClientRun>) {
    exists i ::
      && 0 <= i < |clients| && clients[i].me.key == Signer(server.clientHello)
      && SameSigned(clients[i].hello, server.clientHello)
  }

  /** What a client run is made of, and that its acceptance was checked. */
  ghost predicate ClientOk(c: Crypto, run: ClientRun) {
    && run.hello == ClientHello(c, run.me, run.secret, run.nonce) && |run.nonce| == HANDSHAKE_NONCE_BYTES
    && (run.accepted.Some? ==>
          ClientAccept(c, run.me, run.peer, run.secret, run.nonce, Obj(run.accepted.value.0))
          == Ok(Session(run.accepted.value.1, run.peer.deviceId)))
  }

  ghost predicate ServerOk(c: Crypto, run: ServerRun) {
    && run.answer == ServerHello(c, run.me, run.secret, run.nonce, run.clientHello)
    && |run.nonce| == HANDSHAKE_NONCE_BYTES
    && ValidateHello(c, Obj(run.clientHello), "client") == Ok(run.parts)
  }

  ghost predicate ClientsOk(c: Crypto, w: World) { forall i :: 0 <= i < |w.clients| ==> ClientOk(c, w.clients[i]) }

  ghost predicate ServersOk(c: Crypto, w: World) { forall j :: 0 <= j < |w.servers| ==> ServerOk(c, w.servers[j]) }

  ghost predicate FreshNonces(clients: seq<ClientRun>) {
    forall i, j :: 0 <= i < j < |clients| ==> clients[i].nonce != clients[j].nonce
  }

  ghost predicate AllAnswered(w: World, honest: set<string>) {
    forall i :: 0 <= i < |w.clients| && w.clients[i].peer.key in honest ==> Answered(w.clients[i], w.servers)
  }

  ghost predicate AllAsked(w: World, honest: set<string>) {
    forall j :: 0 <= j < |w.servers| && Signer(w.servers[j].clientHello) in honest ==> Asked(w.servers[j], w.clients)
  }

  ghost predicate Inv(c: Crypto, w: World, honest: set<string>) {
    && LogOk(c, w) && ClientsOk(c, w) && ServersOk(c, w) && FreshNonces(w.clients)
    && AllAnswered(w, honest) && AllAsked(w, honest)
  }

  // ---- reading a verified hello

  lemma SignedIsInjective(c: Crypto, p: Payload, q: Payload)
    requires Lawful(c) && SignedBytes(c, p) == SignedBytes(c, q)
    ensures SameSigned(p, q)
  {
    assert SignedBytes(c, p)[|DOMAIN|..] == c.canonical(p - {"signature"});
    assert SignedBytes(c, q)[|DOMAIN|..] == c.canonical(q - {"signature"});
  }

  lemma SameFields(p: Payload, q: Payload, key: string)
    requires SameSigned(p, q) && key != "signature"
    ensures Field(p, key) == Field(q, key)
  {
    assert key in p <==> key in p - {"signature"};
    assert key in q <==> key in q - {"signature"};
  }

  lemma FieldsOfAccepted(c: Crypto, run: ClientRun, p: Payload)
    requires ClientAccept(c, run.me, run.peer, run.secret, run.nonce, Obj(p)).Ok?
    ensures ValidateHello(c, Obj(p), "server").Ok? && Field(p, "role") == Str("server")
    ensures Field(p, "device_id") == Str(run.peer.deviceId) && Field(p, "identity_key") == Str(run.peer.key)
    ensures Field(p, "peer_hello_hash") == Str(c.hex(c.canonical(ClientHello(c, run.me, run.secret, run.nonce))))
  {
  }

  /** No client signs a message with the server's role, and no server one with the client's. */
  lemma RolesDiffer(c: Crypto, w: World, p: Payload, key: string)
    requires Lawful(c) && ClientsOk(c, w) && ServersOk(c, w)
    ensures Field(p, "role") == Str("server") ==> !ByClient(c, w.clients, key, SignedBytes(c, p))
    ensures Field(p, "role") == Str("client") ==> !ByServer(c, w.servers, key, SignedBytes(c, p))
  {
    forall i | 0 <= i < |w.clients| && SignedBytes(c, p) == SignedBytes(c, w.clients[i].hello)
      ensures Field(p, "role") == Str("client")
    {
      var run := w.clients[i];
      assert ClientOk(c, run);
      SignedIsInjective(c, p, run.hello);
      SameFields(p, run.hello, "role");
      FieldsOfHello(c, "client", run.me, c.public(run.secret), run.nonce, None);
    }
    forall j | 0 <= j < |w.servers| && SignedBytes(c, p) == SignedBytes(c, w.servers[j].answer)
      ensures Field(p, "role") == Str("server")
    {
      var run := w.servers[j];
      assert ServerOk(c, run);
      SignedIsInjective(c, p, run.answer);
      SameFields(p, run.answer, "role");
      FieldsOfHello(c, "server", run.me, c.public(run.secret), run.nonce, Some(c.hex(c.canonical(run.clientHello))));
    }
  }

  /** A server run whose signed answer is the accepted reply ran on the client's own hello. */
  lemma AnswerIsForThisHello(c: Crypto, run: ClientRun, server: ServerRun, p: Payload)
    requires Lawful(c) && ClientOk(c, run) && ServerOk(c, server) && SignedBytes(c, p) == SignedBytes(c, server.answer)
    requires ClientAccept(c, run.me, run.peer, run.secret, run.nonce, Obj(p)).Ok?
    ensures SameSigned(p, server.answer) && server.me == run.peer && server.clientHello == run.hello
  {
    SignedIsInjective(c, p, server.answer);
    FieldsOfAccepted(c, run, p);
    FieldsOfHello(c, "server", server.me, c.public(server.secret), server.nonce,
                  Some(c.hex(c.canonical(server.clientHello))));
    SameFields(p, server.answer, "peer_hello_hash");
    SameFields(p, server.answer, "device_id");
    SameFields(p, server.answer, "identity_key");
    HexOfCanonical(c, server.clientHello, run.hello);
  }

  lemma HexOfCanonical(c: Crypto, p: Payload, q: Payload)
    requires Lawful(c)
    ensures c.hex(c.canonical(p)) == c.hex(c.canonical(q)) ==> p == q
  {
  }

  lemma AcceptedIsAnswered(c: Crypto, w: World, honest: set<string>, run: ClientRun, p: Payload) returns (j: nat)
    requires Lawful(c) && LogOk(c, w) && ClientsOk(c, w) && ServersOk(c, w) && ClientOk(c, run)
    requires run.peer.key in honest && Genuine(c, w.log, honest, Obj(p))
    requires ClientAccept(c, run.me, run.peer, run.secret, run.nonce, Obj(p)).Ok?
    ensures j < |w.servers| && SameSigned(p, w.servers[j].answer) && w.servers[j].me == run.peer
    ensures w.servers[j].clientHello == run.hello
  {
    FieldsOfAccepted(c, run, p);
    var e := (run.peer.key, SignedBytes(c, p));
    ForgeriesAreRefused(c, run.me, run.peer, NOBODY, run.secret, run.nonce, p);
    assert SignedBy(c, p, run.peer.key) && e in w.log;
    assert Logged(c, w.clients, w.servers, e);
    RolesDiffer(c, w, p, run.peer.key);
    j :| 0 <= j < |w.servers| && w.servers[j].me.key == run.peer.key
         && SignedBytes(c, p) == SignedBytes(c, w.servers[j].answer);
    AnswerIsForThisHello(c, run, w.servers[j], p);
  }

  lemma ServedIsAsked(c: Crypto, w: World, honest: set<string>, run: ServerRun)
    requires Lawful(c) && LogOk(c, w) && ClientsOk(c, w) && ServersOk(c, w) && ServerOk(c, run)
    requires Signer(run.clientHello) in honest && Genuine(c, w.log, honest, Obj(run.clientHello))
    ensures Asked(run, w.clients)
  {
    var p := run.clientHello;
    var e := (Signer(p), SignedBytes(c, p));
    HelloIsExact(c, p, "client", run.parts);
    assert SignedBy(c, p, Signer(p)) && e in w.log;
    assert Logged(c, w.clients, w.servers, e);
    RolesDiffer(c, w, p, Signer(p));
    var i :| 0 <= i < |w.clients| && w.clients[i].me.key == Signer(p)
             && SignedBytes(c, p) == SignedBytes(c, w.clients[i].hello);
    SignedIsInjective(c, w.clients[i].hello, p);
  }

  // ---- every trace

  predicate SameRun(a: ClientRun, b: ClientRun) { a.me == b.me && a.hello == b.hello }

  ghost predicate Extends(w: World, w': World) {
    && |w.clients| <= |w'.clients| && w.servers <= w'.servers
    && forall i :: 0 <= i < |w.clients| ==> SameRun(w.clients[i], w'.clients[i])
  }

  lemma LoggedStays(c: Crypto, w: World, w': World, e: (string, Bytes))
    requires Extends(w, w') && Logged(c, w.clients, w.servers, e)
    ensures Logged(c, w'.clients, w'.servers, e)
  {
    if ByClient(c, w.clients, e.0, e.1) {
      var i :| 0 <= i < |w.clients| && w.clients[i].me.key == e.0 && e.1 == SignedBytes(c, w.clients[i].hello);
      assert SameRun(w.clients[i], w'.clients[i]);
    } else {
      var j :| 0 <= j < |w.servers| && w.servers[j].me.key == e.0 && e.1 == SignedBytes(c, w.servers[j].answer);
      assert w'.servers[j] == w.servers[j];
    }
  }

  lemma AskedStays(w: World, w': World, honest: set<string>)
    requires Extends(w, w') && AllAsked(w, honest)
    ensures forall j :: 0 <= j < |w.servers| && Signer(w'.servers[j].clientHello) in honest ==>
              Asked(w'.servers[j], w'.clients)
  {
    forall j | 0 <= j < |w.servers| && Signer(w'.servers[j].clientHello) in honest
      ensures Asked(w'.servers[j], w'.clients)
    {
      var run := w.servers[j];
      assert w'.servers[j] == run && Asked(run, w.clients);
      var i :| 0 <= i < |w.clients| && w.clients[i].me.key == Signer(run.clientHello)
               && SameSigned(w.clients[i].hello, run.clientHello);
      assert SameRun(w.clients[i], w'.clients[i]);
    }
  }

  lemma AnsweredStays(run: ClientRun, servers: seq<ServerRun>, servers': seq<ServerRun>)
    requires Answered(run, servers) && servers <= servers'
    ensures Answered(run, servers')
  {
    if run.accepted.Some? {
      var j :| 0 <= j < |servers| && Answers(run, servers[j]);
      assert servers'[j] == servers[j];
    }
  }

  lemma ConnectKeepsInv(c: Crypto, w: World, honest: set<string>, e: Event)
    requires Inv(c, w, honest) && e.Connect? && Enabled(c, w, honest, e)
    ensures Inv(c, Step(c, w, e), honest)
  {
    var w', n := Step(c, w, e), |w.clients|;
    assert w'.clients[n].me == e.me;
    assert ByClient(c, w'.clients, e.me.key, SignedBytes(c, w'.clients[n].hello));
    forall x | x in w.log ensures Logged(c, w'.clients, w'.servers, x) { LoggedStays(c, w, w', x); }
    AskedStays(w, w', honest);
  }

  lemma ServedRun(c: Crypto, w: World, e: Event)
    requires e.Serve? && |e.nonce| == HANDSHAKE_NONCE_BYTES
    ensures var w' := Step(c, w, e);
            w' == w || (w'.clients == w.clients
                        && |w'.servers| == |w.servers| + 1 && w'.servers[..|w.servers|] == w.servers
                        && var run := w'.servers[|w.servers|];
                           ServerOk(c, run) && e.hello == Obj(run.clientHello)
                           && w'.log == w.log + {(run.me.key, SignedBytes(c, run.answer))})
  {
  }

  lemma AddServer(c: Crypto, w: World, w': World, run: ServerRun, honest: set<string>)
    requires Inv(c, w, honest) && w'.clients == w.clients && w'.servers == w.servers + [run]
    requires w'.log == w.log + {(run.me.key, SignedBytes(c, run.answer))}
    requires ServerOk(c, run) && (Signer(run.clientHello) in honest ==> Asked(run, w.clients))
    ensures Inv(c, w', honest)
  {
    assert w'.servers[|w.servers|] == run;
    assert ByServer(c, w'.servers, run.me.key, SignedBytes(c, run.answer));
    forall x | x in w.log ensures Logged(c, w'.clients, w'.servers, x) { LoggedStays(c, w, w', x); }
    AskedStays(w, w', honest);
    forall i | 0 <= i < |w.clients| && w.clients[i].peer.key in honest ensures Answered(w.clients[i], w'.servers) {
      AnsweredStays(w.clients[i], w.servers, w'.servers);
    }
  }

  lemma ServeKeepsInv(c: Crypto, w: World, honest: set<string>, e: Event)
    requires Lawful(c) && Inv(c, w, honest) && e.Serve? && Enabled(c, w, honest, e)
    ensures Inv(c, Step(c, w, e), honest)
  {
    var w', n := Step(c, w, e), |w.servers|;
    ServedRun(c, w, e);
    if w' != w {
      var run := w'.servers[n];
      assert w'.servers == w.servers + [run];
      if Signer(run.clientHello) in honest { ServedIsAsked(c, w, honest, run); }
      AddServer(c, w, w', run, honest);
    }
  }

  lemma FinishKeepsInv(c: Crypto, w: World, honest: set<string>, e: Event)
    requires Lawful(c) && Inv(c, w, honest) && e.Finish? && Enabled(c, w, honest, e)
    ensures Inv(c, Step(c, w, e), honest)
  {
    var w', run := Step(c, w, e), w.clients[e.i];
    var run' := w'.clients[e.i];
    forall x | x in w.log ensures Logged(c, w'.clients, w'.servers, x) { LoggedStays(c, w, w', x); }
    AskedStays(w, w', honest);
    assert ClientOk(c, run);
    FinishedRun(c, run, e.reply);
    if run'.accepted.Some? && run.peer.key in honest {
      var j := AcceptedIsAnswered(c, w, honest, run, run'.accepted.value.0);
      assert Answers(run', w'.servers[j]);
    }
  }

  lemma FinishedRun(c: Crypto, run: ClientRun, reply: Json)
    requires ClientOk(c, run) && run.accepted.None?
    ensures var run' := AfterReply(c, run, reply);
            && ClientOk(c, run') && SameRun(run, run') && run'.peer == run.peer && run'.nonce == run.nonce
            && (run'.accepted.Some? ==>
                  && reply == Obj(run'.accepted.value.0)
                  && ClientAccept(c, run.me, run.peer, run.secret, run.nonce, reply).Ok?)
  {
  }

  ghost predicate Legal(c: Crypto, w: World, honest: set<string>, events: seq<Event>)
    decreases |events|
  {
    events == [] || (Enabled(c, w, honest, events[0]) && Legal(c, Step(c, w, events[0]), honest, events[1..]))
  }

  ghost function Run(c: Crypto, w: World, honest: set<string>, events: seq<Event>): World
    requires Legal(c, w, honest, events)
    decreases |events|
  {
    if events == [] then w else Run(c, Step(c, w, events[0]), honest, events[1..])
  }

  lemma {:induction false} TraceKeepsInv(c: Crypto, w: World, honest: set<string>, events: seq<Event>)
    requires Lawful(c) && Inv(c, w, honest) && Legal(c, w, honest, events)
    ensures Inv(c, Run(c, w, honest, events), honest)
    decreases |events|
  {
    if events != [] {
      match events[0] {
        case Connect(_, _, _, _) => ConnectKeepsInv(c, w, honest, events[0]);
        case Serve(_, _, _, _, _) => ServeKeepsInv(c, w, honest, events[0]);
        case Finish(_, _) => FinishKeepsInv(c, w, honest, events[0]);
      }
      TraceKeepsInv(c, Step(c, w, events[0]), honest, events[1..]);
    }
  }

  // ---- what acceptance means

  /** Over every trace: a client that accepts, with a peer whose key is not misused, was answered by
      that peer's own server run on exactly the hello this client sent. */
  lemma Agreement(c: Crypto, honest: set<string>, events: seq<Event>, i: nat) returns (j: nat)
    requires Lawful(c) && Legal(c, NOTHING, honest, events)
    requires var w := Run(c, NOTHING, honest, events);
             i < |w.clients| && w.clients[i].accepted.Some? && w.clients[i].peer.key in honest
    ensures var w := Run(c, NOTHING, honest, events);
            && j < |w.servers| && w.servers[j].me == w.clients[i].peer && w.servers[j].clientHello == w.clients[i].hello
            && SameSigned(w.clients[i].accepted.value.0, w.servers[j].answer)
  {
    TraceKeepsInv(c, NOTHING, honest, events);
    var w := Run(c, NOTHING, honest, events);
    assert Answered(w.clients[i], w.servers);
    j :| 0 <= j < |w.servers| && Answers(w.clients[i], w.servers[j]);
  }

  /** Over every trace: a hello a server answered, under a key that is not misused, was made by a
      client with that key (perhaps long ago: the server has no means to see a replay). */
  lemma ServedWasAsked(c: Crypto, honest: set<string>, events: seq<Event>, j: nat) returns (i: nat)
    requires Lawful(c) && Legal(c, NOTHING, honest, events)
    requires var w := Run(c, NOTHING, honest, events);
             j < |w.servers| && Signer(w.servers[j].clientHello) in honest
    ensures var w := Run(c, NOTHING, honest, events);
            && i < |w.clients| && w.clients[i].me.key == Signer(w.servers[j].clientHello)
            && SameSigned(w.clients[i].hello, w.servers[j].clientHello)
  {
    TraceKeepsInv(c, NOTHING, honest, events);
    var w := Run(c, NOTHING, honest, events);
    assert Asked(w.servers[j], w.clients);
    i :| 0 <= i < |w.clients| && w.clients[i].me.key == Signer(w.servers[j].clientHello)
         && SameSigned(w.clients[i].hello, w.servers[j].clientHello);
  }

  lemma AnswersOnlyOne(c: Crypto, a: ClientRun, b: ClientRun, server: ServerRun)
    requires Lawful(c) && ClientOk(c, a) && ClientOk(c, b) && a.nonce != b.nonce
    ensures !(Answers(a, server) && Answers(b, server))
  {
    FieldsOfHello(c, "client", a.me, c.public(a.secret), a.nonce, None);
    FieldsOfHello(c, "client", b.me, c.public(b.secret), b.nonce, None);
    assert c.decode(c.encode(a.nonce)) == Some(a.nonce) && c.decode(c.encode(b.nonce)) == Some(b.nonce);
  }

  /** What each side reads off the other's hello is what the other put there. */
  lemma PartsOfHello(c: Crypto, role: string, me: Identity, secret: nat, nonce: Bytes, hash: Option<string>, p: Payload)
    requires Lawful(c) && SameSigned(p, CreateHello(c, role, me, c.public(secret), nonce, hash))
    requires ValidateHello(c, Obj(p), role).Ok?
    ensures ValidateHello(c, Obj(p), role) == Ok(Parts(c.public(secret), nonce))
  {
    var hello := CreateHello(c, role, me, c.public(secret), nonce, hash);
    FieldsOfHello(c, role, me, c.public(secret), nonce, hash);
    SameFields(p, hello, "ephemeral_key");
    SameFields(p, hello, "nonce");
  }

  lemma TranscriptsAgree(c: Crypto, a: Payload, p: Payload, q: Payload)
    requires Lawful(c) && HexIsAscii(c)
    requires DOMAIN + Ascii(c.hex(c.canonical(a) + [0] + c.canonical(p)))
             == DOMAIN + Ascii(c.hex(c.canonical(a) + [0] + c.canonical(q)))
    ensures p == q
  {
    var s, t := c.canonical(a) + [0] + c.canonical(p), c.canonical(a) + [0] + c.canonical(q);
    assert (DOMAIN + Ascii(c.hex(s)))[|DOMAIN|..] == Ascii(c.hex(s))
           && (DOMAIN + Ascii(c.hex(t)))[|DOMAIN|..] == Ascii(c.hex(t));
    AsciiIsInjective(c.hex(s), c.hex(t));
    assert s[|c.canonical(a)| + 1..] == c.canonical(p) && t[|c.canonical(a)| + 1..] == c.canonical(q);
  }

  ghost predicate HexIsAscii(c: Crypto) {
    forall b: Bytes :: forall k :: 0 <= k < |c.hex(b)| ==> c.hex(b)[k] < 128 as char
  }

  lemma AsciiIsInjective(s: string, t: string)
    requires (forall k :: 0 <= k < |s| ==> s[k] < 128 as char) && (forall k :: 0 <= k < |t| ==> t[k] < 128 as char)
    requires Ascii(s) == Ascii(t)
    ensures s == t
  {
    assert |s| == |Ascii(s)| && |t| == |Ascii(t)|;
    forall k | 0 <= k < |s| ensures s[k] == t[k] {
      assert Ascii(s)[k] == Ascii(t)[k];
    }
  }

  lemma ClientKeyIs(c: Crypto, client: ClientRun, parts: Parts)
    requires ClientOk(c, client) && client.accepted.Some?
    requires ValidateHello(c, Obj(client.accepted.value.0), "server") == Ok(parts)
    ensures DeriveKey(c, client.secret, parts.ephemeral, client.hello, client.accepted.value.0, client.nonce,
                      parts.nonce)
            == Ok(client.accepted.value.1)
  {
  }

  /** Same shared secret, same nonces and client hello: the keys differ just in the server's hello. */
  lemma DerivedKeys(c: Crypto, a: nat, b: nat, hello: Payload, p: Payload, q: Payload, n: Bytes, m: Bytes)
    requires Lawful(c) && Extracting(c) && HexIsAscii(c)
    ensures DeriveKey(c, a, c.public(b), hello, p, n, m).Ok? && DeriveKey(c, b, c.public(a), hello, q, n, m).Ok?
    ensures DeriveKey(c, a, c.public(b), hello, p, n, m) == DeriveKey(c, b, c.public(a), hello, q, n, m) <==> p == q
  {
    assert c.exchange(a, c.public(b)) == c.exchange(b, c.public(a));
    if DeriveKey(c, a, c.public(b), hello, p, n, m) == DeriveKey(c, b, c.public(a), hello, q, n, m) {
      TranscriptsAgree(c, hello, p, q);
    }
  }

  /** Over every trace: no server run answers two clients. */
  lemma DistinctRuns(c: Crypto, honest: set<string>, events: seq<Event>, i: nat, i': nat, j: nat)
    requires Lawful(c) && Legal(c, NOTHING, honest, events)
    requires var w := Run(c, NOTHING, honest, events); i < |w.clients| && i' < |w.clients| && j < |w.servers|
    ensures var w := Run(c, NOTHING, honest, events);
            Answers(w.clients[i], w.servers[j]) && Answers(w.clients[i'], w.servers[j]) ==> i == i'
  {
    TraceKeepsInv(c, NOTHING, honest, events);
    var w := Run(c, NOTHING, honest, events);
    if i != i' {
      assert w.clients[i].nonce != w.clients[i'].nonce by {
        assert i < i' ==> w.clients[i].nonce != w.clients[i'].nonce;
        assert i' < i ==> w.clients[i'].nonce != w.clients[i].nonce;
      }
      AnswersOnlyOne(c, w.clients[i], w.clients[i'], w.servers[j]);
    }
  }

  lemma KeysOfMatchingRuns(c: Crypto, client: ClientRun, server: ServerRun)
    requires Lawful(c) && Extracting(c) && HexIsAscii(c)
    requires ClientOk(c, client) && ServerOk(c, server) && Answers(client, server)
    ensures KeyOf(c, server).Ok?
    ensures KeyOf(c, server).value == client.accepted.value.1 <==> client.accepted.value.0 == server.answer
  {
    var p := client.accepted.value.0;
    FieldsOfAccepted(c, client, p);
    PartsOfHello(c, "server", server.me, server.secret, server.nonce, Some(c.hex(c.canonical(server.clientHello))), p);
    PartsOfHello(c, "client", client.me, client.secret, client.nonce, None, server.clientHello);
    ClientKeyIs(c, client, Parts(c.public(server.secret), server.nonce));
    DerivedKeys(c, client.secret, server.secret, client.hello, p, server.answer, client.nonce, server.nonce);
  }

  /** Over every trace: a client that accepts, with a peer whose key is not misused, was answered by a run
      of that peer that answers no other client, and the two hold the same key exactly when the server's
      hello arrived unchanged; only its signature could have been replaced by another valid one. */
  lemma SameKeyIffUnchanged(c: Crypto, honest: set<string>, events: seq<Event>, i: nat) returns (j: nat)
    requires Lawful(c) && Extracting(c) && HexIsAscii(c) && Legal(c, NOTHING, honest, events)
    requires var w := Run(c, NOTHING, honest, events);
             i < |w.clients| && w.clients[i].accepted.Some? && w.clients[i].peer.key in honest
    ensures var w := Run(c, NOTHING, honest, events);
            && j < |w.servers| && Answers(w.clients[i], w.servers[j]) && KeyOf(c, w.servers[j]).Ok?
            && (KeyOf(c, w.servers[j]).value == w.clients[i].accepted.value.1
                <==> w.clients[i].accepted.value.0 == w.servers[j].answer)
            && forall k :: 0 <= k < |w.clients| && Answers(w.clients[k], w.servers[j]) ==> k == i
  {
    j := Agreement(c, honest, events, i);
    TraceKeepsInv(c, NOTHING, honest, events);
    var w := Run(c, NOTHING, honest, events);
    assert Answers(w.clients[i], w.servers[j]);
    assert ClientOk(c, w.clients[i]) && ServerOk(c, w.servers[j]);
    KeysOfMatchingRuns(c, w.clients[i], w.servers[j]);
    forall k | 0 <= k < |w.clients| && Answers(w.clients[k], w.servers[j]) ensures k == i {
      DistinctRuns(c, honest, events, k, i, j);
    }
  }
}
