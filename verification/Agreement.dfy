/**
 The handshake over a faithful channel: client and server of
 auth/handshake.py take turns in any order over two FIFO queues.
 */
module Agreement {
  import opened Bytes
  import opened Framing
  import opened Handshake

  datatype Client =
    | NotStarted
    | AwaitHello(nonce: Bytes)
    | AwaitDone(nonce: Bytes, peer: Bytes)
    | Complete(session: Session)
    | Broken(error: HsError)

  datatype Server =
    | Listening
    | AwaitResponse(peer: Bytes, nonce: Bytes)
    | Established(session: Session)
    | Dropped(error: HsError)

  /** `messages` lists everything sent, `issued` is the session of a ServerDone
      that was sent. */
  datatype World = World(
    client: Client, server: Server,
    toServer: seq<Packet>, toClient: seq<Packet>,
    messages: seq<Packet>, issued: Option<Session>)

  const INITIAL := World(NotStarted, Listening, [], [], [], None)

  /** A timeout or transport failure at a step: none, before its send, or after. */
  datatype Fault = NoFault | Before | Later

  /** The clock readings and random draws of one step. */
  datatype Env = Env(fault: Fault, now: real, later: real, nonce: Bytes, id: Bytes, secret: Bytes, random: Bytes)

  datatype Move = ClientMove(env: Env) | ServerMove(env: Env)

  function ClientNext(u: Setup, w: World, e: Env): World {
    match w.client
    case NotStarted =>
      var p := ClientOpening(e.nonce, e.now);
      if e.fault.Before? then w.(client := Broken(Transport))
      else w.(client := if e.fault.Later? then Broken(Transport) else AwaitHello(e.nonce),
              toServer := w.toServer + [p], messages := w.messages + [p])
    case AwaitHello(nonce) =>
      if e.fault.Before? then w.(client := Broken(Transport))
      else if w.toClient == [] then w
      else
        var rest := w.toClient[1..];
        (match OnServerHello(u.c, u.clientSk, u.serverPk, nonce, Got(w.toClient[0]), e.now, e.random)
         case Abort(error, _) => w.(client := Broken(error), toClient := rest)
         case Proceed(p, peer) =>
           w.(client := if e.fault.Later? then Broken(Transport) else AwaitDone(nonce, peer),
              toClient := rest, toServer := w.toServer + [p], messages := w.messages + [p]))
    case AwaitDone(_, _) =>
      if !e.fault.NoFault? then w.(client := Broken(Transport))
      else if w.toClient == [] then w
      else
        w.(client := match OnServerDone(u.c, u.clientSk, Got(w.toClient[0]))
                     case Err(error) => Broken(error)
                     case Ok(session) => Complete(session),
           toClient := w.toClient[1..])
    case _ => w
  }

  /** The server gives up; its best-effort notice may get lost. */
  function SendNotice(w: World, error: HsError, notice: Option<Packet>): World {
    w.(server := Dropped(error), toServer := w.toServer[if w.toServer == [] then 0 else 1..],
       toClient := w.toClient + NoticeOf(notice), messages := w.messages + NoticeOf(notice))
  }

  function ServerNext(u: Setup, w: World, e: Env): World {
    match w.server
    case Listening =>
      if e.fault.Before? then w.(server := Dropped(Transport))
      else if w.toServer == [] then w
      else
        (match OnClientHello(u.c, u.serverSk, Got(w.toServer[0]), e.now, e.nonce, e.later, e.random)
         case Abort(error, notice) => SendNotice(w, error, if e.fault.Later? then None else notice)
         case Proceed(p, peer) =>
           w.(server := if e.fault.Later? then Dropped(Transport) else AwaitResponse(peer, e.nonce),
              toServer := w.toServer[1..], toClient := w.toClient + [p], messages := w.messages + [p]))
    case AwaitResponse(peer, nonce) =>
      if e.fault.Before? then w.(server := Dropped(Transport))
      else if w.toServer == [] then w
      else
        (match OnClientResponse(u.c, u.clientPk, peer, nonce, Got(w.toServer[0]), e.id, e.secret, e.random)
         case Abort(error, notice) => SendNotice(w, error, if e.fault.Later? then None else notice)
         case Proceed(p, session) =>
           w.(server := if e.fault.Later? then Dropped(Transport) else Established(session),
              toServer := w.toServer[1..], toClient := w.toClient + [p], messages := w.messages + [p],
              issued := Some(session)))
    case _ => w
  }

  function Next(u: Setup, w: World, m: Move): World {
    match m
    case ClientMove(e) => ClientNext(u, w, e)
    case ServerMove(e) => ServerNext(u, w, e)
  }

  function Run(u: Setup, moves: seq<Move>): World {
    if moves == [] then INITIAL else Next(u, Run(u, moves[..|moves| - 1]), moves[|moves| - 1])
  }

  // ---------------------------------------------------------------------
  // Agreement
  // ---------------------------------------------------------------------

  /** A ServerDone packet that carries `session` for the holder of the client key. */
  ghost predicate Carries(u: Setup, p: Packet, session: Session) {
    exists secret, seed ::
      && p == Packet(ServerDone, DoneBody(session.id, u.c.seal(secret, u.clientPk, seed)))
      && session == MakeSession(u.c, session.id, secret)
  }

  /** What may still be on its way to the client, and who may be complete. */
  ghost predicate Agreeing(u: Setup, w: World) {
    && (forall p | p in w.toClient && p.typ == ServerDone :: w.issued.Some? && Carries(u, p, w.issued.value))
    && (w.server.Listening? || w.server.AwaitResponse? ==> w.issued.None?)
    && (w.server.Established? ==> w.issued == Some(w.server.session))
    && (w.client.Complete? ==> w.issued == Some(w.client.session))
    && (w.issued.Some? ==> exists p :: p in w.messages && p.typ == ServerDone && Carries(u, p, w.issued.value))
  }

  lemma OpensToIssued(u: Setup, p: Packet, session: Session)
    requires u.c.Sound() && Carries(u, p, session)
    ensures var r := OnServerDone(u.c, u.clientSk, Got(p)); r.Ok? ==> r.value == session
  {
  }

  lemma ClientNextAgrees(u: Setup, w: World, e: Env)
    requires u.c.Sound() && Agreeing(u, w)
    ensures Agreeing(u, ClientNext(u, w, e))
  {
    hide OnServerHello, Carries;
    if w.client.AwaitDone? && w.toClient != [] {
      var p := w.toClient[0];
      if p.typ == ServerDone {
        OpensToIssued(u, p, w.issued.value);
      }
    }
  }

  lemma ServerDoneCarries(u: Setup, peer: Bytes, nonce: Bytes, inc: Incoming, e: Env)
    ensures var r := OnClientResponse(u.c, u.clientPk, peer, nonce, inc, e.id, e.secret, e.random);
            r.Proceed? ==> Carries(u, r.send, r.state)
  {
  }

  lemma OnlyNotices(u: Setup, peer: Bytes, nonce: Bytes, inc: Incoming, e: Env)
    ensures var r := OnClientHello(u.c, u.serverSk, inc, e.now, e.nonce, e.later, e.random);
            if r.Proceed? then r.send.typ != ServerDone else forall p | p in NoticeOf(r.notice) :: p.typ != ServerDone
    ensures var r := OnClientResponse(u.c, u.clientPk, peer, nonce, inc, e.id, e.secret, e.random);
            r.Abort? ==> forall p | p in NoticeOf(r.notice) :: p.typ != ServerDone
    ensures NoticeOf(None) == []
  {
  }

  lemma ServerNextAgrees(u: Setup, w: World, e: Env)
    requires Agreeing(u, w)
    ensures Agreeing(u, ServerNext(u, w, e))
  {
    hide OnClientHello, OnClientResponse, Carries, NoticeOf;
    if w.toServer != [] {
      var inc := Got(w.toServer[0]);
      var peer, nonce := if w.server.AwaitResponse? then w.server.peer else [], if w.server.AwaitResponse? then w.server.nonce else [];
      ServerDoneCarries(u, peer, nonce, inc, e);
      OnlyNotices(u, peer, nonce, inc, e);
    }
  }

  lemma {:induction false} RunAgrees(u: Setup, moves: seq<Move>)
    requires u.c.Sound()
    ensures Agreeing(u, Run(u, moves))
  {
    hide ClientNext, ServerNext, Agreeing;
    if moves == [] {
      InitialAgrees(u);
    } else {
      RunAgrees(u, moves[..|moves| - 1]);
      var w, m := Run(u, moves[..|moves| - 1]), moves[|moves| - 1];
      match m {
        case ClientMove(e) => ClientNextAgrees(u, w, e);
        case ServerMove(e) => ServerNextAgrees(u, w, e);
      }
    }
  }

  lemma InitialAgrees(u: Setup)
    ensures Agreeing(u, INITIAL)
  {
  }

  /** On a faithful channel, whatever fails and whenever: if the client
      completes the server has sent ServerDone, and two completed ends hold the
      same session id and keys. */
  lemma CompletedEndsAgree(u: Setup, moves: seq<Move>)
    requires u.c.Sound()
    ensures var w := Run(u, moves);
            && (w.client.Complete? ==> exists p :: p in w.messages && p.typ == ServerDone && Carries(u, p, w.client.session))
            && (w.client.Complete? && w.server.Established? ==> w.client.session == w.server.session)
  {
    hide Run, Carries;
    RunAgrees(u, moves);
  }

  function SessionKeys(s: Session): Keys {
    Keys(Some(s.encKey), Some(s.macKey))
  }

  /** Two completed ends can talk: what the client sends under its session, in
      either direction, the other end receives; only a session id of the
      wrong length or a payload above 16 MiB less the 77 bytes of overhead is refused. */
  lemma CompletedEndsCanTalk(u: Setup, moves: seq<Move>, c: Crypto, typ: MessageType, payload: Bytes, nonce: Nonce, rest: Bytes)
    requires u.c.Sound() && c.Sound()
    requires Run(u, moves).client.Complete? && Run(u, moves).server.Established?
    ensures var s, s' := Run(u, moves).client.session, Run(u, moves).server.session;
            var m := Message(typ, s.id, payload);
            match Encode(c, SessionKeys(s), m, nonce)
            case Ok(wire) =>
              && Receive(c, SessionKeys(s'), wire + rest) == (Ok(m), |wire|)
              && Encode(c, SessionKeys(s'), m, nonce) == Ok(wire)
            case Err(e) => if |s.id| != 16 then e == BadSessionId else e == FrameTooLarge && |payload| > 16 * 1024 * 1024 - 77
    ensures var s := Run(u, moves).client.session;
            Encode(c, SessionKeys(s), Message(typ, s.id, payload), nonce).Ok? <==> |s.id| == 16 && |payload| <= 16 * 1024 * 1024 - 77
  {
    hide Run, Carries, Receive, Print, Encode;
    CompletedEndsAgree(u, moves);
    RunAgrees(u, moves);
    var s := Run(u, moves).client.session;
    DerivedKeys(u, Run(u, moves));
    EncodeSucceeds(c, SessionKeys(s), Message(typ, s.id, payload), nonce);
    if Encode(c, SessionKeys(s), Message(typ, s.id, payload), nonce).Ok? {
      RoundTrip(c, SessionKeys(s), Message(typ, s.id, payload), nonce, rest);
    }
  }

  lemma DerivedKeys(u: Setup, w: World)
    requires u.c.Sound() && Agreeing(u, w) && w.client.Complete?
    ensures |w.client.session.encKey| == AES_KEY_SIZE
  {
    var p :| p in w.messages && p.typ == ServerDone && Carries(u, p, w.issued.value);
    var secret, seed :|
      && p == Packet(ServerDone, DoneBody(w.issued.value.id, u.c.seal(secret, u.clientPk, seed)))
      && w.issued.value == MakeSession(u.c, w.issued.value.id, secret);
    assert |u.c.derive(secret, w.issued.value.id).0| == AES_KEY_SIZE;
  }

  // ---------------------------------------------------------------------
  // Refusals
  // ---------------------------------------------------------------------

  /** A side that reads a message either goes on to its next phase or gives up
      for good; a server that refuses a stale ClientHello or a bad ClientResponse
      says so with an ERROR frame, and a client that reads one gives up. */
  lemma ReadingDecides(u: Setup, w: World, m: Move)
    requires m.env.fault.NoFault?
    ensures var w' := Next(u, w, m);
            match m
            case ClientMove(e) =>
              && (w.client.Broken? || w.client.Complete? ==> w' == w)
              && (w.client.NotStarted? ==>
                    w'.client == AwaitHello(e.nonce) && w'.messages == w.messages + [Packet(ClientHello, HelloBody(e.nonce, e.now))])
              && (w.client.AwaitHello? && w.toClient != [] ==>
                    && w'.toClient == w.toClient[1..]
                    && (w'.client.Broken? || w'.client.AwaitDone?)
                    && (w'.client.Broken? ==> w'.messages == w.messages)
                    && (w.toClient[0].typ == Error ==> w'.client == Broken(UnexpectedType)))
              && (w.client.AwaitDone? && w.toClient != [] ==>
                    && w'.toClient == w.toClient[1..] && w'.messages == w.messages
                    && (w'.client.Broken? || w'.client.Complete?)
                    && (w.toClient[0].typ == Error ==> w'.client == Broken(RejectedByServer)))
            case ServerMove(e) =>
              && (w.server.Dropped? || w.server.Established? ==> w' == w)
              && (w.server.Listening? && w.toServer != [] ==>
                    w'.toServer == w.toServer[1..] && (w'.server.Dropped? || w'.server.AwaitResponse?))
              && (w.server.AwaitResponse? && w.toServer != [] ==>
                    w'.toServer == w.toServer[1..] && (w'.server.Dropped? || w'.server.Established?))
              && (w'.server.Dropped? && w'.server != w.server ==>
                    w'.messages == w.messages +
                      if w'.server.error.StaleTimestamp? || w'.server.error.BadChallenge? || w'.server.error.BadSignature?
                      then [Packet(Error, Notice)] else [])
  {
    hide MakeSession;
  }

  // ---------------------------------------------------------------------
  // Completion
  // ---------------------------------------------------------------------

  /** A move without fault whose clock reading is within the drift of the
      timestamp it is compared with. */
  ghost predicate Clean(w: World, m: Move) {
    && m.env.fault.NoFault?
    && match m
       case ClientMove(e) =>
         w.client.AwaitHello? && w.toClient != [] && w.toClient[0].body.ChallengeBody? ==>
           Fresh(e.now, w.toClient[0].body.timestamp)
       case ServerMove(e) =>
         w.server.Listening? && w.toServer != [] && w.toServer[0].body.HelloBody? ==>
           Fresh(e.now, w.toServer[0].body.timestamp)
  }

  ghost predicate CleanRun(u: Setup, moves: seq<Move>) {
    forall k | 0 <= k < |moves| :: Clean(Run(u, moves[..k]), moves[k])
  }

  /** The five moves of a handshake in order; what is pending after each. */
  ghost predicate Stage(u: Setup, w: World, n: nat) {
    && |w.messages| == (if n <= 4 then n else 4)
    && Types(w.messages) <= [ClientHello, ServerHello, ClientResponse, ServerDone]
    && match n
       case 0 => w == INITIAL
       case 1 =>
         && w.client.AwaitHello? && w.server.Listening? && w.toClient == []
         && |w.toServer| == 1 && w.toServer[0].typ == ClientHello && w.toServer[0].body.HelloBody?
         && w.toServer[0].body.nonce == w.client.nonce
       case 2 =>
         && w.client.AwaitHello? && w.server.AwaitResponse? && w.toServer == [] && |w.toClient| == 1
         && w.server.peer == w.client.nonce
         && SignedHello(u, w.toClient[0], w.client.nonce, w.server.nonce)
       case 3 =>
         && w.client.AwaitDone? && w.server.AwaitResponse? && w.toClient == [] && |w.toServer| == 1
         && w.server.peer == w.client.nonce && w.client.peer == w.server.nonce
         && SignedResponse(u, w.toServer[0], w.client.nonce, w.server.nonce)
       case 4 =>
         && w.client.AwaitDone? && w.server.Established? && w.toServer == [] && |w.toClient| == 1
         && Carries(u, w.toClient[0], w.server.session)
       case 5 =>
         && w.client.Complete? && w.server.Established? && w.toServer == [] && w.toClient == []
         && w.client.session == w.server.session
       case _ => false
  }

  ghost predicate SignedHello(u: Setup, p: Packet, nonceC: Bytes, nonceS: Bytes) {
    && p.typ == ServerHello && p.body.ChallengeBody? && p.body.nonce == nonceS
    && p.body.challenge == u.c.challenge(nonceC + nonceS)
    && u.c.verify(nonceC + nonceS, p.body.signature, u.serverPk)
  }

  ghost predicate SignedResponse(u: Setup, p: Packet, nonceC: Bytes, nonceS: Bytes) {
    && p.typ == ClientResponse && p.body.ResponseBody?
    && p.body.answer == u.c.challenge(nonceS + nonceC)
    && u.c.verify(nonceS + nonceC, p.body.signature, u.clientPk)
  }

  function Types(ps: seq<Packet>): (ts: seq<MessageType>)
    ensures |ts| == |ps|
  {
    seq(|ps|, i requires 0 <= i < |ps| => ps[i].typ)
  }

  /** The side whose turn it is at stage n. */
  predicate Turn(n: nat, m: Move) {
    match m
    case ClientMove(_) => n == 0 || n == 2 || n == 4
    case ServerMove(_) => n == 1 || n == 3
  }

  lemma TypesAppend(ps: seq<Packet>, p: Packet)
    ensures Types(ps + [p]) == Types(ps) + [p.typ]
  {
  }

  lemma HelloStep(u: Setup, nonceC: Bytes, p: Packet, e: Env)
    requires u.c.Sound() && u.KeysMatch()
    requires p.typ == ClientHello && p.body.HelloBody? && p.body.nonce == nonceC && Fresh(e.now, p.body.timestamp)
    ensures var r := OnClientHello(u.c, u.serverSk, Got(p), e.now, e.nonce, e.later, e.random);
            r.Proceed? && r.state == nonceC && r.send.typ == ServerHello && SignedHello(u, r.send, nonceC, e.nonce)
  {
  }

  lemma ChallengeStep(u: Setup, nonceC: Bytes, nonceS: Bytes, p: Packet, e: Env)
    requires u.c.Sound() && u.KeysMatch()
    requires SignedHello(u, p, nonceC, nonceS) && Fresh(e.now, p.body.timestamp)
    ensures var r := OnServerHello(u.c, u.clientSk, u.serverPk, nonceC, Got(p), e.now, e.random);
            r.Proceed? && r.state == nonceS && r.send.typ == ClientResponse && SignedResponse(u, r.send, nonceC, nonceS)
  {
  }

  lemma ResponseStep(u: Setup, nonceC: Bytes, nonceS: Bytes, p: Packet, e: Env)
    requires SignedResponse(u, p, nonceC, nonceS)
    ensures var r := OnClientResponse(u.c, u.clientPk, nonceC, nonceS, Got(p), e.id, e.secret, e.random);
            r.Proceed? && r.send.typ == ServerDone && Carries(u, r.send, r.state)
  {
  }

  lemma DoneStep(u: Setup, p: Packet, session: Session)
    requires u.c.Sound() && u.KeysMatch() && Carries(u, p, session)
    ensures OnServerDone(u.c, u.clientSk, Got(p)) == Ok(session)
  {
    var secret, seed :|
      && p == Packet(ServerDone, DoneBody(session.id, u.c.seal(secret, u.clientPk, seed)))
      && session == MakeSession(u.c, session.id, secret);
    assert u.c.open(u.c.seal(secret, u.c.publicKey(u.clientSk), seed), u.clientSk) == Some(secret);
  }

  /** A clean move of the side whose turn it is goes to the next stage; any
      other clean move does nothing. */
  lemma StageStep(u: Setup, w: World, n: nat, m: Move)
    requires u.c.Sound() && u.KeysMatch()
    requires Stage(u, w, n) && Clean(w, m)
    ensures if Turn(n, m) then n < 5 && Stage(u, Next(u, w, m), n + 1) else Next(u, w, m) == w
  {
    hide OnClientHello, OnServerHello, OnClientResponse, OnServerDone, SignedHello, SignedResponse, Carries, Types, Fresh;
    var e := m.env;
    if Turn(n, m) {
      match n {
        case 0 =>
          TypesAppend(w.messages, ClientOpening(e.nonce, e.now));
        case 1 =>
          HelloStep(u, w.client.nonce, w.toServer[0], e);
          TypesAppend(w.messages, OnClientHello(u.c, u.serverSk, Got(w.toServer[0]), e.now, e.nonce, e.later, e.random).send);
        case 2 =>
          SignedHelloBody(u, w.toClient[0], w.client.nonce, w.server.nonce);
          ChallengeStep(u, w.client.nonce, w.server.nonce, w.toClient[0], e);
          TypesAppend(w.messages, OnServerHello(u.c, u.clientSk, u.serverPk, w.client.nonce, Got(w.toClient[0]), e.now, e.random).send);
        case 3 =>
          ResponseStep(u, w.client.nonce, w.server.nonce, w.toServer[0], e);
          TypesAppend(w.messages, OnClientResponse(u.c, u.clientPk, w.server.peer, w.server.nonce, Got(w.toServer[0]), e.id, e.secret, e.random).send);
        case 4 =>
          DoneStep(u, w.toClient[0], w.server.session);
      }
    }
  }

  lemma SignedHelloBody(u: Setup, p: Packet, nonceC: Bytes, nonceS: Bytes)
    requires SignedHello(u, p, nonceC, nonceS)
    ensures p.body.ChallengeBody?
  {
  }

  /** How many of the moves were taken by the side whose turn it was. */
  function Effective(moves: seq<Move>): nat {
    if moves == [] then 0 else
    var n := Effective(moves[..|moves| - 1]);
    n + if Turn(n, moves[|moves| - 1]) then 1 else 0
  }

  /** With matching keys, clocks within the window and no failure, every
      schedule leads through the same five moves and four messages; when no
      turn is left both ends are complete and agree. */
  lemma {:induction false} CleanRunsComplete(u: Setup, moves: seq<Move>)
    requires u.c.Sound() && u.KeysMatch() && CleanRun(u, moves)
    ensures Stage(u, Run(u, moves), Effective(moves))
  {
    hide Stage, Next, Clean;
    if moves == [] {
      InitialStage(u);
    } else {
      var front := moves[..|moves| - 1];
      assert forall k | 0 <= k < |front| :: front[..k] == moves[..k];
      assert moves[..|front|] == front;
      CleanRunsComplete(u, front);
      StageStep(u, Run(u, front), Effective(front), moves[|front|]);
    }
  }

  lemma InitialStage(u: Setup)
    ensures Stage(u, INITIAL, 0)
  {
  }

  /** Until both ends are complete there is always a side whose move counts. */
  lemma SomeoneCanMove(u: Setup, w: World, n: nat, m: Move)
    requires Stage(u, w, n)
    ensures n <= 5
    ensures n < 5 ==> Turn(n, ClientMove(m.env)) || Turn(n, ServerMove(m.env))
    ensures n == 5 <==> w.client.Complete? && w.server.Established?
    ensures n == 5 ==> Types(w.messages) == [ClientHello, ServerHello, ClientResponse, ServerDone]
  {
  }
}
