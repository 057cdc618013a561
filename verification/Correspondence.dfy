/**
 The handshake of auth/handshake.py against any network: many sessions of both
 sides, every message chosen by the network. What the network cannot do is
 make a signature verify that the key's owner never made, or guess a nonce
 before it is drawn.
 */
module Correspondence {
  import opened Bytes
  import opened Framing
  import opened Handshake

  type Id = nat

  /** A client session: its own nonce and, once it has verified a ServerHello
      and signed, the nonce it took from it. */
  datatype Client = Client(nonce: Bytes, peer: Option<Bytes>, ended: bool, session: Option<Session>)

  /** A server session that has sent its ServerHello. */
  datatype Server = Server(peer: Bytes, nonce: Bytes, ended: bool, session: Option<Session>)

  datatype Net = Net(
    clients: map<Id, Client>, servers: map<Id, Server>,
    drawn: set<Bytes>,                 // all nonces drawn so far
    clientSigned: set<Bytes>, serverSigned: set<Bytes>)

  const START := Net(map[], map[], {}, {}, {})

  /** One step of one session; `inc` is whatever the network delivers. */
  datatype Action =
    | ClientOpens(client: Id, nonce: Bytes)
    | ServerHears(server: Id, inc: Incoming, now: real, nonce: Bytes, later: real, salt: Bytes)
    | ClientHears(client: Id, inc: Incoming, now: real, salt: Bytes)
    | ServerCloses(server: Id, inc: Incoming, id: Bytes, secret: Bytes, seed: Bytes)
    | ClientCloses(client: Id, inc: Incoming)

  function Next(u: Setup, n: Net, a: Action): Net {
    match a
    case ClientOpens(c, nonce) =>
      if c in n.clients then n
      else n.(clients := n.clients[c := Client(nonce, None, false, None)], drawn := n.drawn + {nonce})
    case ServerHears(s, inc, now, nonce, later, salt) =>
      if s in n.servers then n
      else
        (match OnClientHello(u.c, u.serverSk, inc, now, nonce, later, salt)
         case Abort(_, _) => n
         case Proceed(_, peer) =>
           n.(servers := n.servers[s := Server(peer, nonce, false, None)],
              drawn := n.drawn + {nonce}, serverSigned := n.serverSigned + {peer + nonce}))
    case ClientHears(c, inc, now, salt) =>
      if c !in n.clients || n.clients[c].peer.Some? || n.clients[c].ended then n
      else
        var me := n.clients[c];
        (match OnServerHello(u.c, u.clientSk, u.serverPk, me.nonce, inc, now, salt)
         case Abort(_, _) => n.(clients := n.clients[c := me.(ended := true)])
         case Proceed(_, peer) =>
           n.(clients := n.clients[c := me.(peer := Some(peer))], clientSigned := n.clientSigned + {peer + me.nonce}))
    case ServerCloses(s, inc, id, secret, seed) =>
      if s !in n.servers || n.servers[s].ended then n
      else
        var me := n.servers[s];
        (match OnClientResponse(u.c, u.clientPk, me.peer, me.nonce, inc, id, secret, seed)
         case Abort(_, _) => n.(servers := n.servers[s := me.(ended := true)])
         case Proceed(_, session) => n.(servers := n.servers[s := me.(ended := true, session := Some(session))]))
    case ClientCloses(c, inc) =>
      if c !in n.clients || n.clients[c].peer.None? || n.clients[c].ended then n
      else
        var me := n.clients[c];
        (match OnServerDone(u.c, u.clientSk, inc)
         case Err(_) => n.(clients := n.clients[c := me.(ended := true)])
         case Ok(session) => n.(clients := n.clients[c := me.(ended := true, session := Some(session))]))
  }

  /** The signature in an incoming body verifies for `m` only if it was made. */
  ghost predicate Unforged(u: Setup, inc: Incoming, m: Bytes, pk: Key, signed: set<Bytes>) {
    inc.Got? ==>
      match inc.packet.body
      case ChallengeBody(_, _, _, sig) => u.c.verify(m, sig, pk) ==> m in signed
      case ResponseBody(_, sig) => u.c.verify(m, sig, pk) ==> m in signed
      case _ => true
  }

  function NonceIn(inc: Incoming): Bytes {
    if inc.Got? && inc.packet.body.ChallengeBody? then inc.packet.body.nonce else []
  }

  /** Nonces are 16 bytes and new; signatures are not forged. */
  ghost predicate Possible(u: Setup, n: Net, a: Action) {
    match a
    case ClientOpens(_, nonce) => |nonce| == NONCE_SIZE && nonce !in n.drawn
    case ServerHears(_, _, _, nonce, _, _) => |nonce| == NONCE_SIZE && nonce !in n.drawn
    case ClientHears(c, inc, _, _) =>
      c in n.clients ==> Unforged(u, inc, n.clients[c].nonce + NonceIn(inc), u.serverPk, n.serverSigned)
    case ServerCloses(s, inc, _, _, _) =>
      s in n.servers ==> Unforged(u, inc, n.servers[s].nonce + n.servers[s].peer, u.clientPk, n.clientSigned)
    case ClientCloses(_, _) => true
  }

  function Run(u: Setup, actions: seq<Action>): Net {
    if actions == [] then START else Next(u, Run(u, actions[..|actions| - 1]), actions[|actions| - 1])
  }

  ghost predicate PossibleRun(u: Setup, actions: seq<Action>) {
    actions == [] ||
    (PossibleRun(u, actions[..|actions| - 1])
     && Possible(u, Run(u, actions[..|actions| - 1]), actions[|actions| - 1]))
  }

  // ---------------------------------------------------------------------
  // What every possible run keeps
  // ---------------------------------------------------------------------

  ghost predicate NoncesDiffer(n: Net) {
    && (forall c | c in n.clients :: |n.clients[c].nonce| == NONCE_SIZE && n.clients[c].nonce in n.drawn)
    && (forall s | s in n.servers :: |n.servers[s].nonce| == NONCE_SIZE && n.servers[s].nonce in n.drawn)
    && (forall c, d | c in n.clients && d in n.clients && c != d :: n.clients[c].nonce != n.clients[d].nonce)
    && (forall s, t | s in n.servers && t in n.servers && s != t :: n.servers[s].nonce != n.servers[t].nonce)
  }

  /** The client session c signed for the server nonce `peer`. */
  ghost predicate SignedBy(n: Net, c: Id, peer: Bytes, m: Bytes) {
    && c in n.clients && n.clients[c].peer == Some(peer)
    && m == peer + n.clients[c].nonce
  }

  /** The server session s signed for the client nonce it was sent. */
  ghost predicate MadeBy(n: Net, s: Id, m: Bytes) {
    s in n.servers && m == n.servers[s].peer + n.servers[s].nonce
  }

  ghost predicate Traced(n: Net) {
    && (forall m | m in n.clientSigned :: exists c, peer :: SignedBy(n, c, peer, m))
    && (forall m | m in n.serverSigned :: exists s :: MadeBy(n, s, m))
    && (forall c | c in n.clients && n.clients[c].peer.Some? :: n.clients[c].nonce + n.clients[c].peer.value in n.serverSigned)
    && (forall s | s in n.servers && n.servers[s].session.Some? :: n.servers[s].nonce + n.servers[s].peer in n.clientSigned)
  }

  lemma NextNonces(u: Setup, n: Net, a: Action)
    requires NoncesDiffer(n) && Possible(u, n, a)
    ensures NoncesDiffer(Next(u, n, a))
  {
    hide OnClientHello, OnServerHello, OnClientResponse, OnServerDone, Unforged;
  }

  /** A session that goes on has verified what it says it has. */
  lemma ClientVerified(u: Setup, nonce: Bytes, inc: Incoming, now: real, salt: Bytes, signed: set<Bytes>)
    requires Unforged(u, inc, nonce + NonceIn(inc), u.serverPk, signed)
    ensures var r := OnServerHello(u.c, u.clientSk, u.serverPk, nonce, inc, now, salt);
            r.Proceed? ==> nonce + r.state in signed
  {
  }

  lemma ServerVerified(u: Setup, peer: Bytes, nonce: Bytes, inc: Incoming, id: Bytes, secret: Bytes, seed: Bytes, signed: set<Bytes>)
    requires Unforged(u, inc, nonce + peer, u.clientPk, signed)
    ensures var r := OnClientResponse(u.c, u.clientPk, peer, nonce, inc, id, secret, seed);
            r.Proceed? ==> nonce + peer in signed
  {
  }

  /** Sessions keep their nonces, and what they took from the other side. */
  lemma NextKeeps(u: Setup, n: Net, a: Action)
    ensures var n' := Next(u, n, a);
            && n.clientSigned <= n'.clientSigned && n.serverSigned <= n'.serverSigned
            && (forall c | c in n.clients :: c in n'.clients && n'.clients[c].nonce == n.clients[c].nonce
                  && (n.clients[c].peer.Some? ==> n'.clients[c].peer == n.clients[c].peer))
            && (forall s | s in n.servers :: s in n'.servers
                  && n'.servers[s].nonce == n.servers[s].nonce && n'.servers[s].peer == n.servers[s].peer)
  {
    hide OnClientHello, OnServerHello, OnClientResponse, OnServerDone;
  }

  lemma StillTraced(u: Setup, n: Net, a: Action)
    requires Traced(n)
    ensures var n' := Next(u, n, a);
            && (forall m | m in n.clientSigned :: exists c, peer :: SignedBy(n', c, peer, m))
            && (forall m | m in n.serverSigned :: exists s :: MadeBy(n', s, m))
  {
    hide Next;
    NextKeeps(u, n, a);
    var n' := Next(u, n, a);
    forall m | m in n.clientSigned
      ensures exists c, peer :: SignedBy(n', c, peer, m)
    {
      var c, peer :| SignedBy(n, c, peer, m);
      assert SignedBy(n', c, peer, m);
    }
    forall m | m in n.serverSigned
      ensures exists s :: MadeBy(n', s, m)
    {
      var s :| MadeBy(n, s, m);
      assert MadeBy(n', s, m);
    }
  }

  lemma ServerHearsTraced(u: Setup, n: Net, a: Action)
    requires Traced(n) && a.ServerHears?
    ensures Traced(Next(u, n, a))
  {
    hide OnClientHello;
    StillTraced(u, n, a);
    var n' := Next(u, n, a);
    if a.server !in n.servers && a.server in n'.servers {
      assert MadeBy(n', a.server, n'.servers[a.server].peer + n'.servers[a.server].nonce);
    }
  }

  lemma ClientHearsTraced(u: Setup, n: Net, a: Action)
    requires Traced(n) && Possible(u, n, a) && a.ClientHears?
    ensures Traced(Next(u, n, a))
  {
    hide OnServerHello, Unforged;
    StillTraced(u, n, a);
    var n' := Next(u, n, a);
    var c := a.client;
    if c in n.clients {
      ClientVerified(u, n.clients[c].nonce, a.inc, a.now, a.salt, n.serverSigned);
      if n'.clients[c].peer.Some? {
        assert SignedBy(n', c, n'.clients[c].peer.value, n'.clients[c].peer.value + n'.clients[c].nonce);
      }
    }
  }

  lemma ServerClosesTraced(u: Setup, n: Net, a: Action)
    requires Traced(n) && Possible(u, n, a) && a.ServerCloses?
    ensures Traced(Next(u, n, a))
  {
    hide OnClientResponse, Unforged;
    StillTraced(u, n, a);
    var s := a.server;
    if s in n.servers {
      ServerVerified(u, n.servers[s].peer, n.servers[s].nonce, a.inc, a.id, a.secret, a.seed, n.clientSigned);
    }
  }

  lemma OtherTraced(u: Setup, n: Net, a: Action)
    requires Traced(n) && (a.ClientOpens? || a.ClientCloses?)
    ensures Traced(Next(u, n, a))
  {
    hide OnServerDone;
    StillTraced(u, n, a);
  }

  lemma NextTraced(u: Setup, n: Net, a: Action)
    requires Traced(n) && Possible(u, n, a)
    ensures Traced(Next(u, n, a))
  {
    hide Next, Traced, Possible;
    match a {
      case ServerHears(_, _, _, _, _, _) => ServerHearsTraced(u, n, a);
      case ClientHears(_, _, _, _) => ClientHearsTraced(u, n, a);
      case ServerCloses(_, _, _, _, _) => ServerClosesTraced(u, n, a);
      case _ => OtherTraced(u, n, a);
    }
  }

  lemma {:induction false} RunTraced(u: Setup, actions: seq<Action>)
    requires PossibleRun(u, actions)
    ensures NoncesDiffer(Run(u, actions)) && Traced(Run(u, actions))
  {
    hide Next, Possible;
    if actions != [] {
      var front := actions[..|actions| - 1];
      RunTraced(u, front);
      NextNonces(u, Run(u, front), actions[|actions| - 1]);
      NextTraced(u, Run(u, front), actions[|actions| - 1]);
    }
  }

  // ---------------------------------------------------------------------
  // Correspondence
  // ---------------------------------------------------------------------

  /** Client session c is the other end of server session s: it drew the nonce
      that s holds as the client's, took s's nonce, and verified a signature
      of the server over both. */
  ghost predicate Matches(n: Net, s: Id, c: Id) {
    && s in n.servers && c in n.clients
    && n.clients[c].nonce == n.servers[s].peer
    && n.clients[c].peer == Some(n.servers[s].nonce)
    && n.servers[s].peer + n.servers[s].nonce in n.serverSigned
  }

  lemma SplitEqual(a: Bytes, b: Bytes, x: Bytes, y: Bytes)
    requires a + b == x + y && |b| == |y|
    ensures a == x && b == y
  {
    assert |a| == |x|;
    assert a == (a + b)[..|a|] && x == (x + y)[..|x|];
    assert b == (a + b)[|a|..] && y == (x + y)[|x|..];
  }

  /** On any network a completed server session has a matching client session
      exactly when the client nonce it was sent is 16 bytes long, which the
      code does not check. */
  lemma ServerCompletionCorresponds(u: Setup, actions: seq<Action>, s: Id)
    requires PossibleRun(u, actions)
    requires var n := Run(u, actions); s in n.servers && n.servers[s].session.Some?
    ensures var n := Run(u, actions);
            (exists c :: Matches(n, s, c)) <==> |n.servers[s].peer| == NONCE_SIZE
  {
    hide Run, PossibleRun;
    RunTraced(u, actions);
    var n := Run(u, actions);
    if |n.servers[s].peer| == NONCE_SIZE {
      var m := n.servers[s].nonce + n.servers[s].peer;
      var c, peer :| SignedBy(n, c, peer, m);
      SplitEqual(n.servers[s].nonce, n.servers[s].peer, peer, n.clients[c].nonce);
      assert Matches(n, s, c);
    }
  }

  /** The signature that the matching client verified is the one that this very
      server session made, and no other completed server session has the same
      client: distinct server sessions map to distinct client sessions. */
  lemma CorrespondenceIsInjective(u: Setup, actions: seq<Action>, s: Id, t: Id, c: Id)
    requires PossibleRun(u, actions)
    requires var n := Run(u, actions); Matches(n, s, c) && Matches(n, t, c)
    ensures s == t
    ensures var n := Run(u, actions);
            forall x | MadeBy(n, x, n.clients[c].nonce + n.clients[c].peer.value) :: x == s
  {
    hide Run, PossibleRun;
    RunTraced(u, actions);
    var n := Run(u, actions);
    forall x | MadeBy(n, x, n.clients[c].nonce + n.clients[c].peer.value)
      ensures x == s
    {
      SplitEqual(n.servers[s].peer, n.servers[s].nonce, n.servers[x].peer, n.servers[x].nonce);
    }
  }

  /** The client's side: a client session that went on after ServerHello was
      answered by a server session for its own nonce exactly when the server
      nonce it took is 16 bytes long. */
  lemma ClientProgressCorresponds(u: Setup, actions: seq<Action>, c: Id)
    requires PossibleRun(u, actions)
    requires var n := Run(u, actions); c in n.clients && n.clients[c].peer.Some?
    ensures var n := Run(u, actions);
            (exists s :: Matches(n, s, c)) <==> |n.clients[c].peer.value| == NONCE_SIZE
  {
    hide Run, PossibleRun;
    RunTraced(u, actions);
    var n := Run(u, actions);
    if |n.clients[c].peer.value| == NONCE_SIZE {
      var m := n.clients[c].nonce + n.clients[c].peer.value;
      var s :| MadeBy(n, s, m);
      SplitEqual(n.clients[c].nonce, n.clients[c].peer.value, n.servers[s].peer, n.servers[s].nonce);
      assert Matches(n, s, c);
    }
  }

  // ---------------------------------------------------------------------
  // What a message does
  // ---------------------------------------------------------------------

  /** ServerHello as the client must see it. */
  ghost predicate GoodHello(u: Setup, inc: Incoming, nonce: Bytes, now: real) {
    && inc.Got? && inc.packet.typ.ServerHello? && inc.packet.body.ChallengeBody?
    && var b := inc.packet.body;
    && -300.0 <= now - b.timestamp <= 300.0
    && u.c.verify(nonce + b.nonce, b.signature, u.serverPk)
    && b.challenge == u.c.challenge(nonce + b.nonce)
  }

  /** ClientResponse as the server must see it. */
  ghost predicate GoodResponse(u: Setup, inc: Incoming, peer: Bytes, nonce: Bytes) {
    && inc.Got? && inc.packet.typ.ClientResponse? && inc.packet.body.ResponseBody?
    && inc.packet.body.answer == u.c.challenge(nonce + peer)
    && u.c.verify(nonce + peer, inc.packet.body.signature, u.clientPk)
  }

  /** Whatever the network delivers, one message decides: a session goes on if
      the message passes every check, and then signs for it; otherwise it ends
      there. An ended session never changes again. */
  lemma EveryMessageDecides(u: Setup, n: Net, a: Action)
    ensures var n' := Next(u, n, a);
            && (forall c | c in n.clients && n.clients[c].ended :: c in n'.clients && n'.clients[c] == n.clients[c])
            && (forall s | s in n.servers && n.servers[s].ended :: s in n'.servers && n'.servers[s] == n.servers[s])
            && match a
               case ClientOpens(c, nonce) => c !in n.clients ==> n'.clients == n.clients[c := Client(nonce, None, false, None)]
               case ServerHears(s, inc, now, nonce, _, _) =>
                 s !in n.servers ==>
                   if inc.Got? && inc.packet.typ.ClientHello? && inc.packet.body.HelloBody?
                      && -300.0 <= now - inc.packet.body.timestamp <= 300.0
                   then
                     && n'.servers == n.servers[s := Server(inc.packet.body.nonce, nonce, false, None)]
                     && n'.serverSigned == n.serverSigned + {inc.packet.body.nonce + nonce}
                   else n' == n
               case ClientHears(c, inc, now, _) =>
                 c in n.clients && !n.clients[c].ended && n.clients[c].peer.None? ==>
                   var me := n.clients[c];
                   if GoodHello(u, inc, me.nonce, now) then
                     && n'.clients == n.clients[c := me.(peer := Some(inc.packet.body.nonce))]
                     && n'.clientSigned == n.clientSigned + {inc.packet.body.nonce + me.nonce}
                   else n' == n.(clients := n.clients[c := me.(ended := true)])
               case ServerCloses(s, inc, id, secret, _) =>
                 s in n.servers && !n.servers[s].ended ==>
                   var me := n.servers[s];
                   n' == n.(servers := n.servers[s :=
                     if GoodResponse(u, inc, me.peer, me.nonce) then
                       me.(ended := true, session := Some(Session(id, u.c.derive(secret, id).0, u.c.derive(secret, id).1)))
                     else me.(ended := true)])
               case ClientCloses(c, inc) =>
                 c in n.clients && !n.clients[c].ended && n.clients[c].peer.Some? ==>
                   var me := n.clients[c];
                   n' == n.(clients := n.clients[c :=
                     if GoodDone(u, inc) then me.(ended := true, session := Some(Opened(u, inc.packet.body))) else me.(ended := true)])
  {
  }

  /** A ServerDone whose key opens, and the session in it. */
  ghost predicate GoodDone(u: Setup, inc: Incoming) {
    && inc.Got? && inc.packet.typ.ServerDone? && inc.packet.body.DoneBody?
    && u.c.open(inc.packet.body.sealedKey, u.clientSk).Some?
  }

  ghost function Opened(u: Setup, b: Body): Session
    requires b.DoneBody? && u.c.open(b.sealedKey, u.clientSk).Some?
  {
    var keys := u.c.derive(u.c.open(b.sealedKey, u.clientSk).value, b.sessionId);
    Session(b.sessionId, keys.0, keys.1)
  }

  /** With matching keys and clocks, a network that just delivers the messages
      of a new client session c and a new server session s brings both to the
      same session, and they match. */
  lemma DeliveryCompletes(u: Setup, before: seq<Action>, c: Id, s: Id, nonceC: Bytes, nonceS: Bytes, now: real,
                          salt: Bytes, salt': Bytes, id: Bytes, secret: Bytes, seed: Bytes) returns (actions: seq<Action>)
    requires u.c.Sound() && u.KeysMatch()
    requires PossibleRun(u, before) && |nonceC| == |nonceS| == 16 && nonceC != nonceS
    requires var n := Run(u, before);
             c !in n.clients && s !in n.servers && nonceC !in n.drawn && nonceS !in n.drawn
    ensures PossibleRun(u, actions) && before <= actions && |actions| == |before| + 5
    ensures var n := Run(u, actions);
            && Matches(n, s, c) && n.clients[c].nonce == nonceC && n.servers[s].nonce == nonceS
            && n.clients[c].session == n.servers[s].session == Some(MakeSession(u.c, id, secret))
  {
    hide Next, GoodHello, GoodResponse, GoodDone, Opened, Run, PossibleRun;
    var m, t := nonceC + nonceS, nonceS + nonceC;
    var hello := Packet(ServerHello, ChallengeBody(nonceS, now, u.c.challenge(m), u.c.sign(m, u.serverSk, salt)));
    var response := Packet(ClientResponse, ResponseBody(u.c.challenge(t), u.c.sign(t, u.clientSk, salt')));
    var done := Packet(ServerDone, DoneBody(id, u.c.seal(secret, u.clientPk, seed)));
    HonestMessagesAreGood(u, hello, response, done, nonceC, nonceS, now, salt, salt', id, secret, seed);
    var n0 := Run(u, before);
    var a1 := ClientOpens(c, nonceC);
    EveryMessageDecides(u, n0, a1);
    NextKeeps(u, n0, a1);
    var n1 := Next(u, n0, a1);
    OpeningDraws(u, n0, c, nonceC);
    var a2 := ServerHears(s, Got(ClientOpening(nonceC, now)), now, nonceS, now, salt);
    EveryMessageDecides(u, n1, a2);
    HearingKeepsClients(u, n1, a2);
    var n2 := Next(u, n1, a2);
    var a3 := ClientHears(c, Got(hello), now, salt');
    EveryMessageDecides(u, n2, a3);
    NextKeeps(u, n2, a3);
    HearingKeepsServers(u, n2, a3);
    var n3 := Next(u, n2, a3);
    var a4 := ServerCloses(s, Got(response), id, secret, seed);
    EveryMessageDecides(u, n3, a4);
    var n4 := Next(u, n3, a4);
    var a5 := ClientCloses(c, Got(done));
    EveryMessageDecides(u, n4, a5);
    assert m in n2.serverSigned && t in n3.clientSigned;
    actions := before + [a1, a2, a3, a4, a5];
    FiveMore(u, before, a1, a2, a3, a4, a5);
  }

  lemma OpeningDraws(u: Setup, n: Net, c: Id, nonce: Bytes)
    ensures Next(u, n, ClientOpens(c, nonce)).servers == n.servers
    ensures c !in n.clients ==> Next(u, n, ClientOpens(c, nonce)).drawn == n.drawn + {nonce}
  {
  }

  lemma HearingKeepsClients(u: Setup, n: Net, a: Action)
    requires a.ServerHears?
    ensures Next(u, n, a).clients == n.clients
  {
  }

  lemma HearingKeepsServers(u: Setup, n: Net, a: Action)
    requires a.ClientHears?
    ensures Next(u, n, a).servers == n.servers
  {
  }

  lemma HonestMessagesAreGood(u: Setup, hello: Packet, response: Packet, done: Packet, nonceC: Bytes, nonceS: Bytes, now: real,
                              salt: Bytes, salt': Bytes, id: Bytes, secret: Bytes, seed: Bytes)
    requires u.c.Sound() && u.KeysMatch()
    requires var m := nonceC + nonceS;
             hello == Packet(ServerHello, ChallengeBody(nonceS, now, u.c.challenge(m), u.c.sign(m, u.serverSk, salt)))
    requires var t := nonceS + nonceC;
             response == Packet(ClientResponse, ResponseBody(u.c.challenge(t), u.c.sign(t, u.clientSk, salt')))
    requires done == Packet(ServerDone, DoneBody(id, u.c.seal(secret, u.clientPk, seed)))
    ensures GoodHello(u, Got(hello), nonceC, now) && GoodResponse(u, Got(response), nonceC, nonceS)
    ensures GoodDone(u, Got(done)) && Opened(u, done.body) == MakeSession(u.c, id, secret)
    ensures OnClientHello(u.c, u.serverSk, Got(ClientOpening(nonceC, now)), now, nonceS, now, salt) == Proceed(hello, nonceC)
    ensures OnServerHello(u.c, u.clientSk, u.serverPk, nonceC, Got(hello), now, salt') == Proceed(response, nonceS)
    ensures OnClientResponse(u.c, u.clientPk, nonceC, nonceS, Got(response), id, secret, seed) == Proceed(done, MakeSession(u.c, id, secret))
  {
    assert u.c.open(u.c.seal(secret, u.c.publicKey(u.clientSk), seed), u.clientSk) == Some(secret);
  }

  lemma FiveMore(u: Setup, before: seq<Action>, a1: Action, a2: Action, a3: Action, a4: Action, a5: Action)
    requires PossibleRun(u, before) && Possible(u, Run(u, before), a1)
    requires var n1 := Next(u, Run(u, before), a1); Possible(u, n1, a2)
    requires var n2 := Next(u, Next(u, Run(u, before), a1), a2); Possible(u, n2, a3)
    requires var n3 := Next(u, Next(u, Next(u, Run(u, before), a1), a2), a3); Possible(u, n3, a4) && Possible(u, Next(u, n3, a4), a5)
    ensures PossibleRun(u, before + [a1, a2, a3, a4, a5])
    ensures Run(u, before + [a1, a2, a3, a4, a5]) ==
            Next(u, Next(u, Next(u, Next(u, Next(u, Run(u, before), a1), a2), a3), a4), a5)
  {
    hide Next, Run, PossibleRun, Possible;
    RunAppend(u, before, a1);
    RunAppend(u, before + [a1], a2);
    RunAppend(u, before + [a1] + [a2], a3);
    RunAppend(u, before + [a1] + [a2] + [a3], a4);
    RunAppend(u, before + [a1] + [a2] + [a3] + [a4], a5);
    assert before + [a1] + [a2] + [a3] + [a4] + [a5] == before + [a1, a2, a3, a4, a5];
  }

  lemma RunAppend(u: Setup, before: seq<Action>, a: Action)
    requires PossibleRun(u, before) && Possible(u, Run(u, before), a)
    ensures Run(u, before + [a]) == Next(u, Run(u, before), a) && PossibleRun(u, before + [a])
  {
    hide Next, Possible;
    assert (before + [a])[..|before|] == before;
  }

  // ---------------------------------------------------------------------
  // The unchecked length
  // ---------------------------------------------------------------------

  /** Primitives whose signatures show the text they sign. */
  const PLAIN := Primitives(
    (k: Key) => k, (m, _, _) => m, (m, sig, _) => m == sig,
    (m, _, _) => m, (m, _) => Some(m), (m: Bytes) => [], (_, _) => (Zeros(32), Zeros(32)))

  const PLAIN_SETUP := Setup(PLAIN, 0, 1, 0, 1)

  const NONCE_C: Bytes := [3, 0, 0, 0, 0, 0, 0, 0, 0, 0, 0, 0, 0, 0, 0, 0]
  const NONCE_S: Bytes := [1, 0, 0, 0, 0, 0, 0, 0, 0, 0, 0, 0, 0, 0, 0, 0]
  const NONCE_T: Bytes := [0, 0, 0, 0, 0, 0, 0, 0, 0, 0, 0, 0, 0, 0, 0, 2]

  const OPEN_0 := ClientOpens(0, NONCE_C)
  const HEAR_0 := ServerHears(0, Got(Packet(ClientHello, HelloBody([2] + NONCE_C, 0.0))), 0.0, NONCE_S, 0.0, [])
  const HEAR_1 := ServerHears(1, Got(Packet(ClientHello, HelloBody(NONCE_C + [1], 0.0))), 0.0, NONCE_T, 0.0, [])
  const TAKE_0 := ClientHears(0, Got(Packet(ServerHello, ChallengeBody(NONCE_S + [2], 0.0, [], NONCE_C + [1] + NONCE_T))), 0.0, [])
  const CLOSE_0 := ServerCloses(0, Got(Packet(ClientResponse, ResponseBody([], NONCE_S + [2] + NONCE_C))), [], [], [])

  /** The condition is needed: a possible run in which a server session is
      sent a 17-byte nonce and completes with no matching client. NONCE_T is
      the tail of NONCE_S followed by 2, so a server signature for
      NONCE_C + [1] and NONCE_T also reads as one for NONCE_C and NONCE_S + [2]. */
  lemma LengthConditionIsNeeded() returns (actions: seq<Action>)
    ensures PLAIN.Sound() && PossibleRun(PLAIN_SETUP, actions)
    ensures var n := Run(PLAIN_SETUP, actions);
            && 0 in n.servers && n.servers[0].session.Some?
            && |n.servers[0].peer| == 17
            && !exists c :: Matches(n, 0, c)
  {
    hide Next, Possible, Run, PossibleRun, Matches;
    EmptyRun();
    var n1 := OpenStep();
    var a1 := RunOn([], START, OPEN_0, n1);
    var n2 := HearStep(n1);
    var a2 := RunOn(a1, n1, HEAR_0, n2);
    var n3 := HearAgainStep(n2);
    var a3 := RunOn(a2, n2, HEAR_1, n3);
    var n4 := TakeStep(n3);
    var a4 := RunOn(a3, n3, TAKE_0, n4);
    var n5 := CloseStep(n4);
    actions := RunOn(a4, n4, CLOSE_0, n5);
    ServerCompletionCorresponds(PLAIN_SETUP, actions, 0);
  }

  lemma EmptyRun()
    ensures PossibleRun(PLAIN_SETUP, []) && Run(PLAIN_SETUP, []) == START
  {
  }

  lemma RunOn(before: seq<Action>, n: Net, a: Action, n': Net) returns (actions: seq<Action>)
    requires PossibleRun(PLAIN_SETUP, before) && Run(PLAIN_SETUP, before) == n
    requires Possible(PLAIN_SETUP, n, a) && n' == Next(PLAIN_SETUP, n, a)
    ensures PossibleRun(PLAIN_SETUP, actions) && Run(PLAIN_SETUP, actions) == n'
  {
    hide Next, Possible;
    actions := before + [a];
    assert actions[..|before|] == before;
  }

  lemma OpenStep() returns (n: Net)
    ensures Possible(PLAIN_SETUP, START, OPEN_0) && n == Next(PLAIN_SETUP, START, OPEN_0)
    ensures n == Net(map[0 := Client(NONCE_C, None, false, None)], map[], {NONCE_C}, {}, {})
  {
    n := Next(PLAIN_SETUP, START, OPEN_0);
  }

  lemma HearStep(before: Net) returns (n: Net)
    requires before == Net(map[0 := Client(NONCE_C, None, false, None)], map[], {NONCE_C}, {}, {})
    ensures Possible(PLAIN_SETUP, before, HEAR_0) && n == Next(PLAIN_SETUP, before, HEAR_0)
    ensures n.clients == before.clients && n.drawn == {NONCE_C, NONCE_S}
    ensures n.servers == map[0 := Server([2] + NONCE_C, NONCE_S, false, None)]
  {
    assert NONCE_S[0] == 1 && NONCE_C[0] == 3;
    n := Next(PLAIN_SETUP, before, HEAR_0);
  }

  lemma HearAgainStep(before: Net) returns (n: Net)
    requires before.drawn == {NONCE_C, NONCE_S}
    requires before.servers == map[0 := Server([2] + NONCE_C, NONCE_S, false, None)]
    ensures Possible(PLAIN_SETUP, before, HEAR_1) && n == Next(PLAIN_SETUP, before, HEAR_1)
    ensures n.clients == before.clients
    ensures 0 in n.servers && n.servers[0] == before.servers[0]
    ensures NONCE_C + [1] + NONCE_T in n.serverSigned
  {
    assert NONCE_T[0] == 0 && NONCE_S[0] == 1 && NONCE_C[0] == 3;
    n := Next(PLAIN_SETUP, before, HEAR_1);
  }

  lemma TakeStep(before: Net) returns (n: Net)
    requires before.clients == map[0 := Client(NONCE_C, None, false, None)]
    requires 0 in before.servers && before.servers[0] == Server([2] + NONCE_C, NONCE_S, false, None)
    requires NONCE_C + [1] + NONCE_T in before.serverSigned
    ensures Possible(PLAIN_SETUP, before, TAKE_0) && n == Next(PLAIN_SETUP, before, TAKE_0)
    ensures n.servers == before.servers
    ensures NONCE_S + [2] + NONCE_C in n.clientSigned
  {
    assert NONCE_C + (NONCE_S + [2]) == NONCE_C + [1] + NONCE_T;
    n := Next(PLAIN_SETUP, before, TAKE_0);
  }

  lemma CloseStep(before: Net) returns (n: Net)
    requires 0 in before.servers && before.servers[0] == Server([2] + NONCE_C, NONCE_S, false, None)
    requires NONCE_S + [2] + NONCE_C in before.clientSigned
    ensures Possible(PLAIN_SETUP, before, CLOSE_0) && n == Next(PLAIN_SETUP, before, CLOSE_0)
    ensures 0 in n.servers && n.servers[0].session.Some? && n.servers[0].peer == [2] + NONCE_C
  {
    assert NONCE_S + ([2] + NONCE_C) == NONCE_S + [2] + NONCE_C;
    n := Next(PLAIN_SETUP, before, CLOSE_0);
  }
}
