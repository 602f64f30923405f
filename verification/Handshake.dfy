/** The authenticated handshake over a network that may replay, alter or invent any message
    (core/session.py). Signatures, hashes and the key exchange are parameters with stated laws. */
module Handshake {
  import opened Common
  import opened Protocol

  const HANDSHAKE_NONCE_BYTES: nat := 32

  function Ascii(s: string): Bytes { seq(|s|, i requires 0 <= i < |s| => (s[i] as int % 256) as Byte) }

  const DOMAIN: Bytes := Ascii("direct-transfer-v3-authenticated-handshake") + [0]

  datatype Crypto = Crypto(
    canonical: Payload -> Bytes, hex: Bytes -> string,
    encode: Bytes -> string, decode: string -> Option<Bytes>,
    validKey: string -> bool, validDevice: string -> bool,
    public: nat -> Bytes, exchange: (nat, Bytes) -> Option<Bytes>,
    sign: (string, Bytes) -> Bytes, verify: (string, Bytes, Bytes) -> bool,
    kdf: (Bytes, Bytes, Bytes) -> Bytes)

  /** Canonical JSON is injective and free of NUL, hashing has no collisions, base64 decodes what it
      encoded, the exchange commutes (section 6.1 of RFC 7748), an honest signature verifies. */
  ghost predicate Lawful(c: Crypto) {
    && (forall p: Payload, q: Payload :: c.canonical(p) == c.canonical(q) ==> p == q)
    && (forall p: Payload :: 0 !in c.canonical(p))
    && (forall a: Bytes, b: Bytes :: c.hex(a) == c.hex(b) ==> a == b)
    && (forall b: Bytes :: c.decode(c.encode(b)) == Some(b))
    && (forall b: Bytes :: |b| <= 64 ==> |c.encode(b)| <= 256)
    && (forall a: nat :: |c.public(a)| == 32)
    && (forall a: nat, b: nat ::
          c.exchange(a, c.public(b)).Some? && c.exchange(a, c.public(b)) == c.exchange(b, c.public(a)))
    && (forall k: string, m: Bytes :: |c.sign(k, m)| == 64 && c.verify(k, c.sign(k, m), m))
  }

  /** HKDF as a random function: equal keys come from equal inputs (section 2 of RFC 5869). */
  ghost predicate Extracting(c: Crypto) {
    forall s: Bytes, n: Bytes, i: Bytes, s': Bytes, n': Bytes, i': Bytes ::
      c.kdf(s, n, i) == c.kdf(s', n', i') ==> s == s' && n == n' && i == i'
  }

  datatype Identity = Identity(deviceId: string, key: string)

  datatype HandshakeError = Malformed | Unauthenticated

  datatype Parts = Parts(ephemeral: Bytes, nonce: Bytes)

  datatype Session = Session(key: Bytes, peerDeviceId: string)

  // ---- messages

  function SignedBytes(c: Crypto, payload: Payload): Bytes { DOMAIN + c.canonical(payload - {"signature"}) }

  function Unsigned(role: string, id: Identity, ephemeral: string, nonce: string, peerHash: Option<string>): Payload {
    var base := map["type" := Str("hello"), "protocol" := Int(PROTOCOL_VERSION), "role" := Str(role),
                    "device_id" := Str(id.deviceId), "identity_key" := Str(id.key),
                    "ephemeral_key" := Str(ephemeral), "nonce" := Str(nonce)];
    if peerHash.Some? then base["peer_hello_hash" := Str(peerHash.value)] else base
  }

  function CreateHello(c: Crypto, role: string, id: Identity, ephemeral: Bytes, nonce: Bytes,
      peerHash: Option<string>): Payload
  {
    var payload := Unsigned(role, id, c.encode(ephemeral), c.encode(nonce), peerHash);
    payload["signature" := Str(c.encode(c.sign(id.key, SignedBytes(c, payload))))]
  }

  function DecodeField(c: Crypto, value: Json, length: nat): Option<Bytes> {
    if !value.Str? || |value.s| > 256 then None
    else
      var raw := c.decode(value.s);
      if raw.Some? && |raw.value| == length then raw else None
  }

  function ValidateHello(c: Crypto, message: Json, role: string): Result<Parts, HandshakeError> {
    if !message.Obj? then Err(Malformed)
    else
      var p := message.fields;
      var device, key := Field(p, "device_id"), Field(p, "identity_key");
      if Field(p, "type") != Str("hello") || !EqualsInt(Field(p, "protocol"), PROTOCOL_VERSION)
         || Field(p, "role") != Str(role) then Err(Malformed)
      else if !device.Str? || !key.Str? || !c.validDevice(device.s) || !c.validKey(key.s) then Err(Malformed)
      else
        var ephemeral, nonce :=
          DecodeField(c, Field(p, "ephemeral_key"), 32), DecodeField(c, Field(p, "nonce"), HANDSHAKE_NONCE_BYTES);
        var signature := DecodeField(c, Field(p, "signature"), 64);
        if ephemeral.None? || nonce.None? || signature.None? then Err(Malformed)
        else if !c.verify(key.s, signature.value, SignedBytes(c, p)) then Err(Unauthenticated)
        else Ok(Parts(ephemeral.value, nonce.value))
  }

  /** The signature field holds `key`'s signature of everything else in the message. */
  predicate SignedBy(c: Crypto, p: Payload, key: string) {
    var signature := Field(p, "signature");
    signature.Str? && c.decode(signature.s).Some? && c.verify(key, c.decode(signature.s).value, SignedBytes(c, p))
  }

  /** A base64 field of the right length. */
  predicate Encodes(c: Crypto, value: Json, raw: Bytes) {
    value.Str? && |value.s| <= 256 && c.decode(value.s) == Some(raw)
  }

  /** A hello is accepted exactly when it has the right type, version and role, a well-formed identity,
      fields of the right length, and is signed by the key it names. */
  lemma HelloIsExact(c: Crypto, p: Payload, role: string, parts: Parts)
    ensures ValidateHello(c, Obj(p), role) == Ok(parts) <==>
              && Field(p, "type") == Str("hello") && EqualsInt(Field(p, "protocol"), PROTOCOL_VERSION)
              && Field(p, "role") == Str(role)
              && Field(p, "device_id").Str? && c.validDevice(Field(p, "device_id").s)
              && Field(p, "identity_key").Str? && c.validKey(Field(p, "identity_key").s)
              && Encodes(c, Field(p, "ephemeral_key"), parts.ephemeral) && |parts.ephemeral| == 32
              && Encodes(c, Field(p, "nonce"), parts.nonce) && |parts.nonce| == HANDSHAKE_NONCE_BYTES
              && (exists s: Bytes :: |s| == 64 && Encodes(c, Field(p, "signature"), s))
              && SignedBy(c, p, Field(p, "identity_key").s)
  {
    if ValidateHello(c, Obj(p), role) == Ok(parts) {
      var s := DecodeField(c, Field(p, "signature"), 64).value;
      assert Encodes(c, Field(p, "signature"), s);
    }
  }

  /** A message whose signature its own key does not verify is refused on both sides, and the server
      sends nothing and the client gets no key; so are an untrusted client and the wrong server. */
  lemma ForgeriesAreRefused(c: Crypto, me: Identity, peer: Identity, trusted: (string, string) -> bool, secret: nat,
      nonce: Bytes, p: Payload)
    ensures ClientAccept(c, me, peer, secret, nonce, Obj(p)).Ok? ==>
              SignedBy(c, p, peer.key) && Field(p, "device_id") == Str(peer.deviceId)
    ensures ServerAnswer(c, me, trusted, secret, nonce, Obj(p)).Ok? ==>
              && Field(p, "device_id").Str? && Field(p, "identity_key").Str?
              && trusted(Field(p, "device_id").s, Field(p, "identity_key").s)
              && SignedBy(c, p, Field(p, "identity_key").s)
  {
    var asServer, asClient := ValidateHello(c, Obj(p), "server"), ValidateHello(c, Obj(p), "client");
    if asServer.Ok? { HelloIsExact(c, p, "server", asServer.value); }
    if asClient.Ok? { HelloIsExact(c, p, "client", asClient.value); }
  }

  function DeriveKey(c: Crypto, secret: nat, remote: Bytes, clientHello: Payload, serverHello: Payload,
                     clientNonce: Bytes, serverNonce: Bytes): Result<Bytes, HandshakeError> {
    var shared := c.exchange(secret, remote);
    if shared.None? then Err(Malformed)
    else
      Ok(c.kdf(shared.value, Ascii(c.hex(clientNonce + serverNonce)),
               DOMAIN + Ascii(c.hex(c.canonical(clientHello) + [0] + c.canonical(serverHello)))))
  }

  function ClientHello(c: Crypto, me: Identity, secret: nat, nonce: Bytes): Payload {
    CreateHello(c, "client", me, c.public(secret), nonce, None)
  }

  function ServerHello(c: Crypto, me: Identity, secret: nat, nonce: Bytes, clientHello: Payload): Payload {
    CreateHello(c, "server", me, c.public(secret), nonce, Some(c.hex(c.canonical(clientHello))))
  }

  /** The client's side once the reply is in. */
  function ClientAccept(c: Crypto, me: Identity, peer: Identity, secret: nat, nonce: Bytes,
      reply: Json): Result<Session, HandshakeError>
  {
    match ValidateHello(c, reply, "server")
    case Err(error) => Err(error)
    case Ok(parts) =>
      if !reply.Obj? then Err(Malformed)
      else
        var p, hello := reply.fields, ClientHello(c, me, secret, nonce);
        if Field(p, "device_id") != Str(peer.deviceId) || Field(p, "identity_key") != Str(peer.key)
        then Err(Unauthenticated)
        else if Field(p, "peer_hello_hash") != Str(c.hex(c.canonical(hello))) then Err(Unauthenticated)
        else
          match DeriveKey(c, secret, parts.ephemeral, hello, p, nonce, parts.nonce)
          case Err(error) => Err(error)
          case Ok(key) => Ok(Session(key, peer.deviceId))
  }

  /** What the server answers to a hello, before it derives the key. */
  function ServerAnswer(c: Crypto, me: Identity, trusted: (string, string) -> bool, secret: nat, nonce: Bytes,
      hello: Json)
    : Result<Payload, HandshakeError>
  {
    match ValidateHello(c, hello, "client")
    case Err(error) => Err(error)
    case Ok(_) =>
      if !hello.Obj? || !Field(hello.fields, "device_id").Str? || !Field(hello.fields, "identity_key").Str?
      then Err(Malformed)
      else if !trusted(Field(hello.fields, "device_id").s, Field(hello.fields, "identity_key").s)
      then Err(Unauthenticated)
      else Ok(ServerHello(c, me, secret, nonce, hello.fields))
  }

  function ServerKey(c: Crypto, secret: nat, nonce: Bytes, parts: Parts, clientHello: Payload, serverHello: Payload)
    : Result<Bytes, HandshakeError>
  {
    DeriveKey(c, secret, parts.ephemeral, clientHello, serverHello, parts.nonce, nonce)
  }

  // ---- two honest ends

  predicate WellFormed(c: Crypto, id: Identity) { c.validDevice(id.deviceId) && c.validKey(id.key) }

  lemma FieldsOfHello(c: Crypto, role: string, me: Identity, ephemeral: Bytes, nonce: Bytes, hash: Option<string>)
    ensures var p := CreateHello(c, role, me, ephemeral, nonce, hash);
            && Field(p, "role") == Str(role)
            && Field(p, "device_id") == Str(me.deviceId)
            && Field(p, "identity_key") == Str(me.key)
            && Field(p, "nonce") == Str(c.encode(nonce)) && Field(p, "ephemeral_key") == Str(c.encode(ephemeral))
            && (hash.Some? ==> Field(p, "peer_hello_hash") == Str(hash.value))
  {
  }

  lemma CreatedHelloIsSigned(c: Crypto, role: string, id: Identity, ephemeral: Bytes, nonce: Bytes,
      hash: Option<string>)
    requires Lawful(c)
    ensures var p := CreateHello(c, role, id, ephemeral, nonce, hash);
            SignedBy(c, p, id.key) && exists s: Bytes :: |s| == 64 && Encodes(c, Field(p, "signature"), s)
  {
    var unsigned := Unsigned(role, id, c.encode(ephemeral), c.encode(nonce), hash);
    var p := CreateHello(c, role, id, ephemeral, nonce, hash);
    assert p - {"signature"} == unsigned - {"signature"};
    var signature := c.sign(id.key, SignedBytes(c, unsigned));
    assert c.decode(c.encode(signature)) == Some(signature) && Encodes(c, Field(p, "signature"), signature);
  }

  /** Whatever an honest end creates passes the other's checks, and its parts come out as they went in. */
  lemma CreatedHelloPasses(c: Crypto, role: string, id: Identity, ephemeral: Bytes, nonce: Bytes, hash: Option<string>)
    requires Lawful(c) && WellFormed(c, id) && |ephemeral| == 32 && |nonce| == HANDSHAKE_NONCE_BYTES
    ensures ValidateHello(c, Obj(CreateHello(c, role, id, ephemeral, nonce, hash)), role) == Ok(Parts(ephemeral, nonce))
  {
    var p := CreateHello(c, role, id, ephemeral, nonce, hash);
    FieldsOfHello(c, role, id, ephemeral, nonce, hash);
    CreatedHelloIsSigned(c, role, id, ephemeral, nonce, hash);
    assert Encodes(c, Field(p, "ephemeral_key"), ephemeral) && Encodes(c, Field(p, "nonce"), nonce);
    HelloIsExact(c, p, role, Parts(ephemeral, nonce));
  }

  lemma HonestServerAnswers(c: Crypto, client: Identity, server: Identity, trusted: (string, string) -> bool,
      a: nat, b: nat, n: Bytes, m: Bytes)
    requires Lawful(c) && WellFormed(c, client) && trusted(client.deviceId, client.key)
    requires |n| == HANDSHAKE_NONCE_BYTES
    ensures var hello := ClientHello(c, client, a, n);
            && ServerAnswer(c, server, trusted, b, m, Obj(hello)) == Ok(ServerHello(c, server, b, m, hello))
            && ValidateHello(c, Obj(hello), "client") == Ok(Parts(c.public(a), n))
            && Field(hello, "device_id") == Str(client.deviceId)
  {
    CreatedHelloPasses(c, "client", client, c.public(a), n, None);
    FieldsOfHello(c, "client", client, c.public(a), n, None);
  }

  lemma HonestClientAccepts(c: Crypto, client: Identity, server: Identity, a: nat, b: nat, n: Bytes, m: Bytes)
    requires Lawful(c) && WellFormed(c, server) && |m| == HANDSHAKE_NONCE_BYTES
    ensures var hello := ClientHello(c, client, a, n);
            var answer := ServerHello(c, server, b, m, hello);
            var key := DeriveKey(c, a, c.public(b), hello, answer, n, m);
            key.Ok? && ClientAccept(c, client, server, a, n, Obj(answer)) == Ok(Session(key.value, server.deviceId))
  {
    var hash := Some(c.hex(c.canonical(ClientHello(c, client, a, n))));
    CreatedHelloPasses(c, "server", server, c.public(b), m, hash);
    FieldsOfHello(c, "server", server, c.public(b), m, hash);
    assert c.exchange(a, c.public(b)).Some?;
  }

  /** Two honest ends whose messages arrive unaltered both accept, each with the other's identity, and hold
      the same key. */
  lemma HonestEndsAgree(c: Crypto, client: Identity, server: Identity, trusted: (string, string) -> bool,
      a: nat, b: nat, n: Bytes, m: Bytes)
    requires Lawful(c) && WellFormed(c, client) && WellFormed(c, server) && trusted(client.deviceId, client.key)
    requires |n| == |m| == HANDSHAKE_NONCE_BYTES
    ensures var hello := ClientHello(c, client, a, n);
            var answer := ServerAnswer(c, server, trusted, b, m, Obj(hello));
            && answer.Ok? && Field(hello, "device_id") == Str(client.deviceId)
            && var session := ClientAccept(c, client, server, a, n, Obj(answer.value));
            && session.Ok? && session.value.peerDeviceId == server.deviceId
            && ServerKey(c, b, m, ValidateHello(c, Obj(hello), "client").value, hello, answer.value)
               == Ok(session.value.key)
  {
    HonestServerAnswers(c, client, server, trusted, a, b, n, m);
    HonestClientAccepts(c, client, server, a, b, n, m);
    assert c.exchange(a, c.public(b)) == c.exchange(b, c.public(a));
  }

  // ---- the two procedures

  class Wire {
    var incoming: seq<Json>
    var sent: seq<Payload>

    constructor (incoming: seq<Json>)
      ensures this.incoming == incoming && sent == []
    {
      this.incoming, sent := incoming, [];
    }

    method Send(payload: Payload)
      modifies this`sent
      ensures sent == old(sent) + [payload]
    {
      sent := sent + [payload];
    }

    method Receive() returns (message: Option<Json>)
      modifies this`incoming
      ensures old(incoming) == [] ==> message.None? && incoming == []
      ensures old(incoming) != [] ==> message == Some(old(incoming)[0]) && incoming == old(incoming)[1..]
    {
      if incoming == [] { return None; }
      message, incoming := Some(incoming[0]), incoming[1..];
    }
  }

  /** client_handshake: one hello out, one hello in; a lost connection reads as malformed. */
  method ClientHandshake(conn: Wire, c: Crypto, me: Identity, peer: Identity, peerTrusted: bool, secret: nat,
      nonce: Bytes)
    returns (r: Result<Session, HandshakeError>)
    modifies conn
    ensures !peerTrusted ==>
              r == Err(Unauthenticated) && conn.sent == old(conn.sent) && conn.incoming == old(conn.incoming)
    ensures peerTrusted ==> conn.sent == old(conn.sent) + [ClientHello(c, me, secret, nonce)]
    ensures peerTrusted && old(conn.incoming) == [] ==> r == Err(Malformed)
    ensures peerTrusted && old(conn.incoming) != [] ==>
      r == ClientAccept(c, me, peer, secret, nonce, old(conn.incoming)[0]) && conn.incoming == old(conn.incoming)[1..]
  {
    if !peerTrusted { return Err(Unauthenticated); }
    var hello := CreateHello(c, "client", me, c.public(secret), nonce, None);
    conn.Send(hello);
    var message := conn.Receive();
    if message.None? { return Err(Malformed); }
    var checked := ValidateHello(c, message.value, "server");
    if checked.Err? { return Err(checked.error); }
    var p := message.value.fields;
    if Field(p, "device_id") != Str(peer.deviceId) || Field(p, "identity_key") != Str(peer.key) {
      return Err(Unauthenticated);
    }
    if Field(p, "peer_hello_hash") != Str(c.hex(c.canonical(hello))) { return Err(Unauthenticated); }
    var key := DeriveKey(c, secret, checked.value.ephemeral, hello, p, nonce, checked.value.nonce);
    if key.Err? { return Err(key.error); }
    return Ok(Session(key.value, peer.deviceId));
  }

  /** server_handshake: the answer leaves before the key is derived. */
  method ServerHandshake(conn: Wire, c: Crypto, me: Identity, trusted: (string, string) -> bool, secret: nat,
      nonce: Bytes)
    returns (r: Result<Session, HandshakeError>)
    modifies conn
    ensures old(conn.incoming) == [] ==> r == Err(Malformed) && conn.sent == old(conn.sent)
    ensures old(conn.incoming) != [] ==>
      var hello := old(conn.incoming)[0];
      match ServerAnswer(c, me, trusted, secret, nonce, hello)
      case Err(error) => r == Err(error) && conn.sent == old(conn.sent)
      case Ok(answer) =>
        && conn.sent == old(conn.sent) + [answer]
        && var key := ServerKey(c, secret, nonce, ValidateHello(c, hello, "client").value, hello.fields, answer);
           if key.Ok? then r == Ok(Session(key.value, hello.fields["device_id"].s)) else r == Err(key.error)
  {
    var message := conn.Receive();
    if message.None? { return Err(Malformed); }
    var checked := ValidateHello(c, message.value, "client");
    if checked.Err? { return Err(checked.error); }
    var p := message.value.fields;
    if !trusted(p["device_id"].s, p["identity_key"].s) { return Err(Unauthenticated); }
    var answer := ServerHello(c, me, secret, nonce, p);
    conn.Send(answer);
    var key := ServerKey(c, secret, nonce, checked.value, p, answer);
    if key.Err? { return Err(key.error); }
    return Ok(Session(key.value, p["device_id"].s));
  }
}
