/**
 The mutual handshake of auth/handshake.py: what each side does with each
 message, and the two imperative functions that chain these steps.

 Signatures, OAEP, HKDF and HMAC are the functions of a `Primitives` value. The
 JSON of a payload is read as one of the bodies below, or as malformed.
 */
module Handshake {
  import opened Bytes
  import opened Framing

  type Key = nat

  const MAX_TIMESTAMP_DRIFT := 300.0
  const NONCE_SIZE := 16

  /** `publicKey` gives the public half of a private key. The last argument of
      `sign` and `seal` is their random salt or seed. */
  datatype Primitives = Primitives(
    publicKey: Key -> Key,
    sign: (Bytes, Key, Bytes) -> Bytes,
    verify: (Bytes, Bytes, Key) -> bool,
    seal: (Bytes, Key, Bytes) -> Bytes,
    open: (Bytes, Key) -> Option<Bytes>,
    challenge: Bytes -> Bytes,                 // HMAC under the fixed challenge key
    derive: (Bytes, Bytes) -> (Bytes, Bytes))  // (secret, salt) to (enc_key, mac_key)
  {
    /** Signing and sealing work for matching keys, a sealed text never opens to
        a different text, and derived keys are 32 bytes each. */
    ghost predicate Sound() {
      && (forall m, sk, r :: verify(m, sign(m, sk, r), publicKey(sk)))
      && (forall m, sk, r :: open(seal(m, publicKey(sk), r), sk) == Some(m))
      && (forall m, pk, sk, r :: open(seal(m, pk, r), sk).Some? ==> open(seal(m, pk, r), sk) == Some(m))
      && (forall s, salt :: |derive(s, salt).0| == AES_KEY_SIZE && |derive(s, salt).1| == AES_KEY_SIZE)
    }
  }

  /** The keys of a deployment: what each side has of its own and of the other. */
  datatype Setup = Setup(c: Primitives, clientSk: Key, serverSk: Key, clientPk: Key, serverPk: Key)
  {
    ghost predicate KeysMatch() {
      clientPk == c.publicKey(clientSk) && serverPk == c.publicKey(serverSk)
    }
  }

  datatype Body =
    | HelloBody(nonce: Bytes, timestamp: real)
    | ChallengeBody(nonce: Bytes, timestamp: real, challenge: Bytes, signature: Bytes)
    | ResponseBody(answer: Bytes, signature: Bytes)
    | DoneBody(sessionId: Bytes, sealedKey: Bytes)
    | Malformed
    | Notice                                   // the text of an ERROR frame

  datatype Packet = Packet(typ: MessageType, body: Body)

  /** What recv_frame gives: a valid frame, or any exception. */
  datatype Incoming = Got(packet: Packet) | Failed

  datatype Session = Session(id: Bytes, encKey: Bytes, macKey: Bytes)

  datatype HsError =
    | Transport | UnexpectedType | BadPayload | StaleTimestamp
    | BadSignature | BadChallenge | RejectedByServer | CannotOpenKey

  /** A side sends a packet and goes on, or gives up, perhaps after a notice. */
  datatype Reaction<T> =
    | Proceed(send: Packet, state: T)
    | Abort(error: HsError, notice: Option<Packet>)

  predicate Fresh(now: real, timestamp: real) {
    -MAX_TIMESTAMP_DRIFT <= now - timestamp <= MAX_TIMESTAMP_DRIFT
  }

  function MakeSession(c: Primitives, id: Bytes, secret: Bytes): Session {
    var (enc, mac) := c.derive(secret, id);
    Session(id, enc, mac)
  }

  // ---------------------------------------------------------------------
  // Client steps
  // ---------------------------------------------------------------------

  function ClientOpening(nonce: Bytes, now: real): Packet {
    Packet(ClientHello, HelloBody(nonce, now))
  }

  /** ServerHello received: the state is the server's nonce. */
  function OnServerHello(c: Primitives, sk: Key, serverPk: Key, nonce: Bytes, inc: Incoming, now: real, salt: Bytes): Reaction<Bytes> {
    if inc.Failed? then Abort(Transport, None)
    else if inc.packet.typ != ServerHello then Abort(UnexpectedType, None)
    else if !inc.packet.body.ChallengeBody? then Abort(BadPayload, None)
    else
      var b := inc.packet.body;
      if !Fresh(now, b.timestamp) then Abort(StaleTimestamp, None)
      else if !c.verify(nonce + b.nonce, b.signature, serverPk) then Abort(BadSignature, None)
      else if b.challenge != c.challenge(nonce + b.nonce) then Abort(BadChallenge, None)
      else
        var t := b.nonce + nonce;
        Proceed(Packet(ClientResponse, ResponseBody(c.challenge(t), c.sign(t, sk, salt))), b.nonce)
  }

  function OnServerDone(c: Primitives, sk: Key, inc: Incoming): Result<Session, HsError> {
    if inc.Failed? then Err(Transport)
    else if inc.packet.typ == Error then Err(RejectedByServer)
    else if inc.packet.typ != ServerDone then Err(UnexpectedType)
    else if !inc.packet.body.DoneBody? then Err(BadPayload)
    else match c.open(inc.packet.body.sealedKey, sk)
      case None => Err(CannotOpenKey)
      case Some(secret) => Ok(MakeSession(c, inc.packet.body.sessionId, secret))
  }

  // ---------------------------------------------------------------------
  // Server steps
  // ---------------------------------------------------------------------

  const NOTICE := Packet(Error, Notice)

  /** ClientHello received: the state is the client's nonce, of whatever length. */
  function OnClientHello(c: Primitives, sk: Key, inc: Incoming, now: real, nonce: Bytes, later: real, salt: Bytes): Reaction<Bytes> {
    if inc.Failed? then Abort(Transport, None)
    else if inc.packet.typ != ClientHello then Abort(UnexpectedType, None)
    else if !inc.packet.body.HelloBody? then Abort(BadPayload, None)
    else
      var b := inc.packet.body;
      if !Fresh(now, b.timestamp) then Abort(StaleTimestamp, Some(NOTICE))
      else
        var t := b.nonce + nonce;
        Proceed(Packet(ServerHello, ChallengeBody(nonce, later, c.challenge(t), c.sign(t, sk, salt))), b.nonce)
  }

  /** ClientResponse received: the state is the session. */
  function OnClientResponse(c: Primitives, clientPk: Key, peer: Bytes, nonce: Bytes, inc: Incoming,
                            id: Bytes, secret: Bytes, seed: Bytes): Reaction<Session> {
    if inc.Failed? then Abort(Transport, None)
    else if inc.packet.typ != ClientResponse then Abort(UnexpectedType, None)
    else if !inc.packet.body.ResponseBody? then Abort(BadPayload, None)
    else
      var b := inc.packet.body;
      var t := nonce + peer;
      if b.answer != c.challenge(t) then Abort(BadChallenge, Some(NOTICE))
      else if !c.verify(t, b.signature, clientPk) then Abort(BadSignature, Some(NOTICE))
      else Proceed(Packet(ServerDone, DoneBody(id, c.seal(secret, clientPk, seed))), MakeSession(c, id, secret))
  }

  // ---------------------------------------------------------------------
  // The two functions as they are run
  // ---------------------------------------------------------------------

  /** One side's end of the connection: the packets that will arrive, the fate
      of its sends, and what it has sent. */
  class Channel {
    var inbox: seq<Incoming>
    var faults: seq<bool>
    var sent: seq<Packet>

    constructor (inbox: seq<Incoming>, faults: seq<bool>)
      ensures this.inbox == inbox && this.faults == faults && sent == []
    {
      this.inbox, this.faults, sent := inbox, faults, [];
    }

    method Recv() returns (inc: Incoming)
      modifies `inbox
      ensures inc == NextOf(old(inbox)) && inbox == RestOf(old(inbox))
    {
      inc := NextOf(inbox);
      inbox := RestOf(inbox);
    }

    /** False if send_frame raises. */
    method Send(p: Packet) returns (ok: bool)
      modifies `sent, `faults
      ensures ok == !(old(faults) != [] && old(faults)[0])
      ensures sent == if ok then old(sent) + [p] else old(sent)
      ensures faults == if old(faults) != [] then old(faults)[1..] else []
    {
      ok := !(faults != [] && faults[0]);
      faults := if faults != [] then faults[1..] else [];
      if ok {
        sent := sent + [p];
      }
    }
  }

  function NextOf(inbox: seq<Incoming>): Incoming {
    if inbox == [] then Failed else inbox[0]
  }

  function RestOf(inbox: seq<Incoming>): seq<Incoming> {
    if inbox == [] then [] else inbox[1..]
  }

  /** client_handshake: it returns a session only if ServerHello passed all its
      checks, and then it has sent its two messages and the session is what
      ServerDone says; without send faults every outcome is that of the steps. */
  method ClientHandshake(c: Primitives, sk: Key, serverPk: Key, ch: Channel,
                         nonce: Bytes, start: real, now: real, salt: Bytes)
    returns (r: Result<Session, HsError>)
    modifies ch
    ensures var hello := NextOf(old(ch.inbox));
            var last := NextOf(RestOf(old(ch.inbox)));
            var step := OnServerHello(c, sk, serverPk, nonce, hello, now, salt);
            && (r.Ok? ==> step.Proceed? && r == OnServerDone(c, sk, last))
            && (r.Ok? ==> ch.sent == old(ch.sent) + [ClientOpening(nonce, start), step.send])
            && (true !in old(ch.faults) ==>
                  if step.Abort? then r == Err(step.error) && ch.sent == old(ch.sent) + [ClientOpening(nonce, start)]
                  else r == OnServerDone(c, sk, last) && ch.sent == old(ch.sent) + [ClientOpening(nonce, start), step.send])
    // what has been checked and sent when it returns a session
    ensures var hello := NextOf(old(ch.inbox));
            r.Ok? ==>
              && hello.Got? && hello.packet.typ.ServerHello? && hello.packet.body.ChallengeBody?
              && (var b := hello.packet.body;
                  && -300.0 <= now - b.timestamp <= 300.0
                  && c.verify(nonce + b.nonce, b.signature, serverPk)
                  && b.challenge == c.challenge(nonce + b.nonce)
                  && ch.sent == old(ch.sent) + [
                       Packet(ClientHello, HelloBody(nonce, start)),
                       Packet(ClientResponse, ResponseBody(c.challenge(b.nonce + nonce), c.sign(b.nonce + nonce, sk, salt)))])
    ensures var last := NextOf(RestOf(old(ch.inbox)));
            r.Ok? ==>
              && last.Got? && last.packet.typ.ServerDone? && last.packet.body.DoneBody?
              && (var (id, secret) := (last.packet.body.sessionId, c.open(last.packet.body.sealedKey, sk));
                  && secret.Some? && r.value.id == id
                  && r.value.encKey == c.derive(secret.value, id).0 && r.value.macKey == c.derive(secret.value, id).1)
    // nothing else is asked of ServerDone
    ensures var hello, last := NextOf(old(ch.inbox)), NextOf(RestOf(old(ch.inbox)));
            && true !in old(ch.faults) && last.Got?
            && hello.Got? && hello.packet.typ.ServerHello? && hello.packet.body.ChallengeBody?
            && -300.0 <= now - hello.packet.body.timestamp <= 300.0
            && c.verify(nonce + hello.packet.body.nonce, hello.packet.body.signature, serverPk)
            && hello.packet.body.challenge == c.challenge(nonce + hello.packet.body.nonce) ==>
              && (r == Err(RejectedByServer) <==> last.packet.typ.Error?)
              && (r.Ok? <==> last.packet.typ.ServerDone? && last.packet.body.DoneBody? && c.open(last.packet.body.sealedKey, sk).Some?)
    // and each refusal of a ServerHello, with nothing sent after the ClientHello
    ensures var hello := NextOf(old(ch.inbox));
            true !in old(ch.faults) && hello.Got? && hello.packet.typ.ServerHello? && hello.packet.body.ChallengeBody? ==>
              var b := hello.packet.body;
              var stale := now - b.timestamp > 300.0 || b.timestamp - now > 300.0;
              var signed := c.verify(nonce + b.nonce, b.signature, serverPk);
              && (r == Err(StaleTimestamp) <==> stale)
              && (r == Err(BadSignature) <==> !stale && !signed)
              && (r == Err(BadChallenge) <==> !stale && signed && b.challenge != c.challenge(nonce + b.nonce))
              && (r == Err(StaleTimestamp) || r == Err(BadSignature) || r == Err(BadChallenge) ==>
                    ch.sent == old(ch.sent) + [Packet(ClientHello, HelloBody(nonce, start))])
  {
    var ok := ch.Send(ClientOpening(nonce, start));
    if !ok {
      return Err(Transport);
    }
    var inc := ch.Recv();
    if inc.Failed? {
      return Err(Transport);
    }
    if inc.packet.typ != ServerHello {
      return Err(UnexpectedType);
    }
    if !inc.packet.body.ChallengeBody? {
      return Err(BadPayload);
    }
    var b := inc.packet.body;
    if now - b.timestamp > MAX_TIMESTAMP_DRIFT || b.timestamp - now > MAX_TIMESTAMP_DRIFT {
      return Err(StaleTimestamp);
    }
    if !c.verify(nonce + b.nonce, b.signature, serverPk) {
      return Err(BadSignature);
    }
    if b.challenge != c.challenge(nonce + b.nonce) {
      return Err(BadChallenge);
    }
    var transcript := b.nonce + nonce;
    var signature := c.sign(transcript, sk, salt);
    ok := ch.Send(Packet(ClientResponse, ResponseBody(c.challenge(transcript), signature)));
    if !ok {
      return Err(Transport);
    }
    inc := ch.Recv();
    if inc.Failed? {
      return Err(Transport);
    }
    if inc.packet.typ != ServerDone {
      return Err(if inc.packet.typ == Error then RejectedByServer else UnexpectedType);
    }
    if !inc.packet.body.DoneBody? {
      return Err(BadPayload);
    }
    var secret := c.open(inc.packet.body.sealedKey, sk);
    if secret.None? {
      return Err(CannotOpenKey);
    }
    return Ok(MakeSession(c, inc.packet.body.sessionId, secret.value));
  }

  /** server_handshake: it returns a session only if both client messages
      passed their checks, and then it has sent ServerHello and ServerDone;
      without send faults a rejection is followed by a notice exactly where
      the steps say so. */
  method ServerHandshake(c: Primitives, sk: Key, clientPk: Key, ch: Channel,
                         now: real, nonce: Bytes, later: real, salt: Bytes,
                         id: Bytes, secret: Bytes, seed: Bytes)
    returns (r: Result<Session, HsError>)
    modifies ch
    ensures var hello := NextOf(old(ch.inbox));
            var response := NextOf(RestOf(old(ch.inbox)));
            var first := OnClientHello(c, sk, hello, now, nonce, later, salt);
            && (r.Ok? ==> first.Proceed?)
            && (r.Ok? ==>
                  var second := OnClientResponse(c, clientPk, first.state, nonce, response, id, secret, seed);
                  second.Proceed? && r == Ok(second.state) && ch.sent == old(ch.sent) + [first.send, second.send])
            && (true !in old(ch.faults) ==>
                  if first.Abort? then r == Err(first.error) && ch.sent == old(ch.sent) + NoticeOf(first.notice)
                  else
                    var second := OnClientResponse(c, clientPk, first.state, nonce, response, id, secret, seed);
                    if second.Abort? then r == Err(second.error) && ch.sent == old(ch.sent) + [first.send] + NoticeOf(second.notice)
                    else r == Ok(second.state) && ch.sent == old(ch.sent) + [first.send, second.send])
    // what has been checked and sent when it returns a session
    ensures var hello, response := NextOf(old(ch.inbox)), NextOf(RestOf(old(ch.inbox)));
            r.Ok? ==>
              && hello.Got? && hello.packet.typ.ClientHello? && hello.packet.body.HelloBody?
              && response.Got? && response.packet.typ.ClientResponse? && response.packet.body.ResponseBody?
              && (var (peer, b) := (hello.packet.body.nonce, response.packet.body);
                  && -300.0 <= now - hello.packet.body.timestamp <= 300.0
                  && b.answer == c.challenge(nonce + peer)
                  && c.verify(nonce + peer, b.signature, clientPk)
                  && r.value.id == id
                  && r.value.encKey == c.derive(secret, id).0 && r.value.macKey == c.derive(secret, id).1
                  && ch.sent == old(ch.sent) + [
                       Packet(ServerHello, ChallengeBody(nonce, later, c.challenge(peer + nonce), c.sign(peer + nonce, sk, salt))),
                       Packet(ServerDone, DoneBody(id, c.seal(secret, clientPk, seed)))])
    // a stale ClientHello is answered with an ERROR frame and nothing else
    ensures var hello := NextOf(old(ch.inbox));
            hello.Got? && hello.packet.typ.ClientHello? && hello.packet.body.HelloBody? ==>
              var stale := now - hello.packet.body.timestamp > 300.0 || hello.packet.body.timestamp - now > 300.0;
              && (r == Err(StaleTimestamp) <==> stale)
              && (stale && true !in old(ch.faults) ==> ch.sent == old(ch.sent) + [Packet(Error, Notice)])
    // and so is a bad ClientResponse, after the ServerHello
    ensures var hello, response := NextOf(old(ch.inbox)), NextOf(RestOf(old(ch.inbox)));
            && true !in old(ch.faults)
            && hello.Got? && hello.packet.typ.ClientHello? && hello.packet.body.HelloBody?
            && -300.0 <= now - hello.packet.body.timestamp <= 300.0
            && response.Got? && response.packet.typ.ClientResponse? && response.packet.body.ResponseBody? ==>
              var (peer, b) := (hello.packet.body.nonce, response.packet.body);
              var answered := b.answer == c.challenge(nonce + peer);
              && (r == Err(BadChallenge) <==> !answered)
              && (r == Err(BadSignature) <==> answered && !c.verify(nonce + peer, b.signature, clientPk))
              && (r.Err? ==> ch.sent == old(ch.sent) + [
                    Packet(ServerHello, ChallengeBody(nonce, later, c.challenge(peer + nonce), c.sign(peer + nonce, sk, salt))),
                    Packet(Error, Notice)])
              && (r.Err? ==> r == Err(BadChallenge) || r == Err(BadSignature))
  {
    var inc := ch.Recv();
    if inc.Failed? {
      return Err(Transport);
    }
    if inc.packet.typ != ClientHello {
      return Err(UnexpectedType);
    }
    if !inc.packet.body.HelloBody? {
      return Err(BadPayload);
    }
    var peer := inc.packet.body.nonce;
    var timestamp := inc.packet.body.timestamp;
    if now - timestamp > MAX_TIMESTAMP_DRIFT || timestamp - now > MAX_TIMESTAMP_DRIFT {
      var _ := ch.Send(NOTICE);
      return Err(StaleTimestamp);
    }
    var transcript := peer + nonce;
    var signature := c.sign(transcript, sk, salt);
    var ok := ch.Send(Packet(ServerHello, ChallengeBody(nonce, later, c.challenge(transcript), signature)));
    if !ok {
      return Err(Transport);
    }
    inc := ch.Recv();
    if inc.Failed? {
      return Err(Transport);
    }
    if inc.packet.typ != ClientResponse {
      return Err(UnexpectedType);
    }
    if !inc.packet.body.ResponseBody? {
      return Err(BadPayload);
    }
    transcript := nonce + peer;
    if inc.packet.body.answer != c.challenge(transcript) {
      var _ := ch.Send(NOTICE);
      return Err(BadChallenge);
    }
    if !c.verify(transcript, inc.packet.body.signature, clientPk) {
      var _ := ch.Send(NOTICE);
      return Err(BadSignature);
    }
    var sealed := c.seal(secret, clientPk, seed);
    ok := ch.Send(Packet(ServerDone, DoneBody(id, sealed)));
    if !ok {
      return Err(Transport);
    }
    return Ok(MakeSession(c, id, secret));
  }

  function NoticeOf(notice: Option<Packet>): seq<Packet> {
    if notice.Some? then [notice.value] else []
  }
}
