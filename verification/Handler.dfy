/**
 One connection of server/server_main.py: the program counter of
 `handle_client` as an automaton over the events of the connection, and what
 every history of a connection satisfies.
 */
module Handler {
  import opened Bytes
  import opened Limiter
  import opened Framing

  /** What the handler depends on besides its socket. */
  datatype Config = Config(limits: Limits, allowed: Ip -> bool, crypto: Crypto)

  /** Where a thread is, with the locals that are still needed there. */
  datatype Pc =
    | AtWhitelist
    | AtAdmit
    | AtHandshake
    | AtSetup                                  // client_sock.settimeout
    | AtIdleCheck                              // head of the serve loop
    | AtRecv
    | AtTouch(request: Bytes)
    | AtLookup(request: Bytes)                 // first half of check_rate
    | AtConsume(request: Bytes)                // second half of check_rate
    | AtRefuse                                 // send ERROR
    | AtForward(request: Bytes, granted: real)
    | AtReply(response: Bytes)                 // send DATA_RESPONSE
    | AtRemove                                 // the inner finally
    | Ended

  datatype Local = Local(pc: Pc, keys: Keys)

  /** One event of a connection. `Raised` is an exception out of a call. */
  datatype What =
    | Allowed | Denied
    | Admitted | CapRefused
    | Handshaken(keys: Keys)
    | SetUp
    | StillActive | WentIdle
    | Accepted(raw: Bytes, message: Message)   // a DATA_REQUEST, with its bytes on the wire
    | Ignored(message: Message)                // a valid frame of another type
    | FrameFailed(error: RecvError)
    | Touched
    | Looked(built: bool)
    | Verdict(ok: bool, at: real)
    | SentError
    | Forwarded(request: Bytes, response: Bytes, granted: real)
    | SentResponse(response: Bytes)
    | Raised
    | Removed

  type History = seq<What>

  const START := Local(AtWhitelist, Keys(None, None))

  /** Control flow: where an event leads. */
  function After(l: Local, e: What): Local {
    match e
    case Allowed => l.(pc := AtAdmit)
    case Denied => l.(pc := Ended)
    case Admitted => l.(pc := AtHandshake)
    case CapRefused => l.(pc := Ended)
    case Handshaken(keys) => Local(AtSetup, keys)
    case SetUp => l.(pc := AtIdleCheck)
    case StillActive => l.(pc := AtRecv)
    case WentIdle => l.(pc := AtRemove)
    case Accepted(_, m) => l.(pc := AtTouch(m.payload))
    case Ignored(_) => l.(pc := AtIdleCheck)
    case FrameFailed(_) => l.(pc := AtRemove)
    case Touched => if l.pc.AtTouch? then l.(pc := AtLookup(l.pc.request)) else l
    case Looked(_) => if l.pc.AtLookup? then l.(pc := AtConsume(l.pc.request)) else l
    case Verdict(ok, at) =>
      if !l.pc.AtConsume? then l
      else if ok then l.(pc := AtForward(l.pc.request, at))
      else l.(pc := AtRefuse)
    case SentError => l.(pc := AtIdleCheck)
    case Forwarded(_, response, _) => l.(pc := AtReply(response))
    case SentResponse(_) => l.(pc := AtIdleCheck)
    case Raised => if l.pc.AtWhitelist? || l.pc.AtAdmit? then l.(pc := Ended) else l.(pc := AtRemove)
    case Removed => l.(pc := Ended)
  }

  /** `raw` is one whole frame that passes the MAC, type and decryption checks. */
  predicate Genuine(c: Crypto, keys: Keys, raw: Bytes, m: Message) {
    Receive(c, keys, raw) == (Ok(m), |raw|)
  }

  /** The events that can happen at a program counter. */
  predicate Enabled(cfg: Config, ip: Ip, l: Local, e: What) {
    match l.pc
    case AtWhitelist => (e == Allowed && cfg.allowed(ip)) || (e == Denied && !cfg.allowed(ip)) || e == Raised
    case AtAdmit => e == Admitted || e == CapRefused || e == Raised
    case AtHandshake => e.Handshaken? || e == Raised
    case AtSetup => e == SetUp || e == Raised
    case AtIdleCheck => e == StillActive || e == WentIdle || e == Raised
    case AtRecv =>
      || (e.Accepted? && e.message.typ.DataRequest? && Genuine(cfg.crypto, l.keys, e.raw, e.message))
      || (e.Ignored? && !e.message.typ.DataRequest?)
      || e.FrameFailed?
    case AtTouch(_) => e == Touched || e == Raised
    case AtLookup(_) => e.Looked? || e == Raised
    case AtConsume(_) => e.Verdict? || e == Raised
    case AtRefuse => e == SentError || e == Raised
    case AtForward(request, granted) => e.Forwarded? && e.request == request && e.granted == granted
    case AtReply(response) => e == SentResponse(response) || e == Raised
    case AtRemove => e == Removed
    case Ended => false
  }

  function Replay(h: History): Local {
    if h == [] then START else After(Replay(h[..|h| - 1]), h[|h| - 1])
  }

  /** Histories that the handler's code can produce. */
  predicate Legal(cfg: Config, ip: Ip, h: History) {
    h == [] || (Legal(cfg, ip, h[..|h| - 1]) && Enabled(cfg, ip, Replay(h[..|h| - 1]), h[|h| - 1]))
  }

  lemma {:induction false} LegalPrefix(cfg: Config, ip: Ip, h: History, n: nat)
    requires Legal(cfg, ip, h) && n <= |h|
    ensures Legal(cfg, ip, h[..n])
    ensures n < |h| ==> Enabled(cfg, ip, Replay(h[..n]), h[n]) && Replay(h[..n + 1]) == After(Replay(h[..n]), h[n])
  {
    if n < |h| {
      LegalPrefix(cfg, ip, h[..|h| - 1], n);
      assert h[..|h| - 1][..n] == h[..n];
      assert h[..n + 1][..n] == h[..n];
      if n + 1 < |h| {
        assert h[..|h| - 1][..n + 1] == h[..n + 1];
      } else {
        assert h[..n + 1] == h;
      }
    } else {
      assert h[..n] == h;
    }
  }

  // ---------------------------------------------------------------------
  // Gate ordering
  // ---------------------------------------------------------------------

  /** The connection passed the whitelist, the caps and the handshake, in this order. */
  ghost predicate Opened(cfg: Config, ip: Ip, keys: Keys, h: History) {
    && 4 <= |h|
    && cfg.allowed(ip)
    && h[..4] == [Allowed, Admitted, Handshaken(keys), SetUp]
  }

  ghost predicate AsksFor(cfg: Config, keys: Keys, request: Bytes, e: What) {
    && e.Accepted? && e.message.typ.DataRequest? && e.message.payload == request
    && Genuine(cfg.crypto, keys, e.raw, e.message)
  }

  /** The last events are the acceptance of `request` and what follows it. */
  ghost predicate Pending(cfg: Config, keys: Keys, request: Bytes, h: History, since: nat) {
    && since < |h|
    && AsksFor(cfg, keys, request, h[|h| - 1 - since])
    && (1 <= since ==> h[|h| - since] == Touched)
    && (2 <= since ==> h[|h| - since + 1].Looked?)
  }

  ghost predicate Shape(cfg: Config, ip: Ip, l: Local, h: History) {
    match l.pc
    case AtWhitelist => h == []
    case AtAdmit => h == [Allowed] && cfg.allowed(ip)
    case AtHandshake => h == [Allowed, Admitted] && cfg.allowed(ip)
    case AtSetup => h == [Allowed, Admitted, Handshaken(l.keys)] && cfg.allowed(ip)
    case AtIdleCheck => Opened(cfg, ip, l.keys, h)
    case AtRecv => Opened(cfg, ip, l.keys, h)
    case AtTouch(r) => Opened(cfg, ip, l.keys, h) && Pending(cfg, l.keys, r, h, 0)
    case AtLookup(r) => Opened(cfg, ip, l.keys, h) && Pending(cfg, l.keys, r, h, 1)
    case AtConsume(r) => Opened(cfg, ip, l.keys, h) && Pending(cfg, l.keys, r, h, 2)
    case AtForward(r, at) => Opened(cfg, ip, l.keys, h) && Pending(cfg, l.keys, r, h, 3) && h[|h| - 1] == Verdict(true, at)
    case AtRefuse => Opened(cfg, ip, l.keys, h)
    case AtReply(_) => Opened(cfg, ip, l.keys, h)
    case AtRemove => true
    case Ended => true
  }

  lemma PendingStep(cfg: Config, keys: Keys, request: Bytes, h: History, e: What, since: nat)
    requires Pending(cfg, keys, request, h, since) && since < 3
    requires since == 0 ==> e == Touched
    requires since == 1 ==> e.Looked?
    ensures Pending(cfg, keys, request, h + [e], since + 1)
  {
    hide AsksFor;
    var h' := h + [e];
    assert forall i | 0 <= i < |h| :: h'[i] == h[i];
  }

  lemma ShapeStep(cfg: Config, ip: Ip, l: Local, h: History, e: What)
    requires Shape(cfg, ip, l, h) && Enabled(cfg, ip, l, e)
    ensures Shape(cfg, ip, After(l, e), h + [e])
  {
    hide Genuine, Pending;
    var h' := h + [e];
    if 4 <= |h| {
      assert h'[..4] == h[..4];
    }
    match l.pc {
      case AtRecv =>
        if e.Accepted? {
          AcceptedIsPending(cfg, l.keys, h, e);
        }
      case AtTouch(r) =>
        if e == Touched {
          PendingStep(cfg, l.keys, r, h, e, 0);
        }
      case AtLookup(r) =>
        if e.Looked? {
          PendingStep(cfg, l.keys, r, h, e, 1);
        }
      case AtConsume(r) =>
        if e.Verdict? {
          PendingStep(cfg, l.keys, r, h, e, 2);
        }
      case _ =>
    }
  }

  lemma AcceptedIsPending(cfg: Config, keys: Keys, h: History, e: What)
    requires e.Accepted? && AsksFor(cfg, keys, e.message.payload, e)
    ensures Pending(cfg, keys, e.message.payload, h + [e], 0)
  {
  }

  lemma {:induction false} LegalShape(cfg: Config, ip: Ip, h: History)
    requires Legal(cfg, ip, h)
    ensures Shape(cfg, ip, Replay(h), h)
  {
    if h == [] {
      assert Shape(cfg, ip, START, h);
    } else {
      LegalShape(cfg, ip, h[..|h| - 1]);
      LegalShapeStep(cfg, ip, h);
    }
  }

  lemma LegalShapeStep(cfg: Config, ip: Ip, h: History)
    requires h != [] && Legal(cfg, ip, h)
    requires Shape(cfg, ip, Replay(h[..|h| - 1]), h[..|h| - 1])
    ensures Shape(cfg, ip, Replay(h), h)
  {
    hide Shape, Enabled, After;
    var front, e := h[..|h| - 1], h[|h| - 1];
    ShapeStep(cfg, ip, Replay(front), front, e);
    assert h == front + [e];
  }

  /** Every call of forward_request is for a request that came in a genuine
      DATA_REQUEST frame under the session's keys and was granted just before,
      on a connection that passed whitelist, caps and handshake first. */
  lemma ForwardIsGated(cfg: Config, ip: Ip, h: History, i: nat)
    requires Legal(cfg, ip, h)
    requires i < |h| && h[i].Forwarded?
    ensures 8 <= i
    ensures cfg.allowed(ip)
    ensures h[0] == Allowed && h[1] == Admitted && h[2].Handshaken? && h[3] == SetUp
    ensures h[i - 4].Accepted? && h[i - 4].message.typ.DataRequest? && h[i - 4].message.payload == h[i].request
    ensures Genuine(cfg.crypto, h[2].keys, h[i - 4].raw, h[i - 4].message)
    ensures h[i - 3] == Touched && h[i - 2].Looked? && h[i - 1] == Verdict(true, h[i].granted)
  {
    hide Genuine, Pending, Opened, After;
    var f := h[..i];
    LegalPrefix(cfg, ip, h, i);
    LegalShape(cfg, ip, f);
    assert Replay(f).pc == AtForward(h[i].request, h[i].granted);
    GateEvents(cfg, ip, Replay(f).keys, h[i].request, h, i);
  }

  lemma GateEvents(cfg: Config, ip: Ip, keys: Keys, request: Bytes, h: History, i: nat)
    requires i <= |h|
    requires Opened(cfg, ip, keys, h[..i]) && Pending(cfg, keys, request, h[..i], 3)
    ensures 8 <= i && cfg.allowed(ip)
    ensures h[0] == Allowed && h[1] == Admitted && h[2] == Handshaken(keys) && h[3] == SetUp
    ensures AsksFor(cfg, keys, request, h[i - 4])
    ensures h[i - 3] == Touched && h[i - 2].Looked?
  {
    hide Genuine;
    var f := h[..i];
    assert h[..4] == f[..4];
    assert forall k | 0 <= k < 4 :: h[k] == h[..4][k];
    assert forall k | 0 <= k < i :: f[k] == h[k];
  }

  // ---------------------------------------------------------------------
  // Every admission is undone exactly once
  // ---------------------------------------------------------------------

  /** How often an event occurs. */
  function Times(h: History, e: What): nat {
    if h == [] then 0 else Times(h[..|h| - 1], e) + if h[|h| - 1] == e then 1 else 0
  }

  /** Between admission and cleanup. */
  predicate Holding(pc: Pc) {
    !(pc.AtWhitelist? || pc.AtAdmit? || pc.Ended?)
  }

  ghost predicate Balanced(pc: Pc, admitted: nat, removed: nat) {
    && admitted <= 1
    && removed == (if pc.Ended? then admitted else 0)
    && (Holding(pc) ==> admitted == 1)
    && (pc.AtWhitelist? || pc.AtAdmit? ==> admitted == 0)
  }

  lemma BalanceStep(cfg: Config, ip: Ip, l: Local, e: What, admitted: nat, removed: nat)
    requires Balanced(l.pc, admitted, removed) && Enabled(cfg, ip, l, e)
    ensures Balanced(After(l, e).pc,
                     admitted + if e == Admitted then 1 else 0,
                     removed + if e == Removed then 1 else 0)
  {
    hide Genuine;
  }

  /** On every exit path an admission is undone exactly once, and a connection
      that was never admitted undoes nothing. */
  lemma {:induction false} UndoneExactlyOnce(cfg: Config, ip: Ip, h: History)
    requires Legal(cfg, ip, h)
    ensures Balanced(Replay(h).pc, Times(h, Admitted), Times(h, Removed))
  {
    hide Enabled, After;
    if h != [] {
      var front := h[..|h| - 1];
      UndoneExactlyOnce(cfg, ip, front);
      BalanceStep(cfg, ip, Replay(front), h[|h| - 1], Times(front, Admitted), Times(front, Removed));
    }
  }

  /** The handler leaves the loop for good. */
  predicate Final(e: What) {
    e.FrameFailed? || e.WentIdle? || e.Raised? || e.Removed? || e.Denied? || e.CapRefused?
  }

  /** After the first frame error, idle break or exception nothing follows but
      the cleanup: no further frame is processed. */
  lemma {:induction false} NothingAfterFinal(cfg: Config, ip: Ip, h: History, i: nat)
    requires Legal(cfg, ip, h)
    requires i < |h| && Final(h[i])
    ensures i == |h| - 1 || (i == |h| - 2 && h[|h| - 1] == Removed)
    ensures Replay(h).pc.AtRemove? || Replay(h).pc.Ended?
    ensures i == |h| - 2 || h[i] == Removed ==> Replay(h).pc.Ended?
  {
    hide Genuine;
    var front := h[..|h| - 1];
    if i < |front| {
      NothingAfterFinal(cfg, ip, front, i);
    }
  }

  // ---------------------------------------------------------------------
  // What follows what
  // ---------------------------------------------------------------------

  /** Where the last event of a history of n events has left the thread. */
  ghost predicate Located(last: What, n: nat, pc: Pc) {
    match last
    case Allowed => pc.AtAdmit?
    case Denied => pc.Ended?
    case Admitted => pc.AtHandshake?
    case CapRefused => pc.Ended?
    case Handshaken(_) => pc.AtSetup?
    case StillActive => pc.AtRecv?
    case WentIdle => pc.AtRemove? && 3 <= n
    case Accepted(_, m) => pc == AtTouch(m.payload)
    case FrameFailed(_) => pc.AtRemove? && 3 <= n
    case Touched => pc.AtLookup?
    case Looked(_) => pc.AtConsume?
    case Verdict(ok, at) => if ok then pc.AtForward? && pc.granted == at else pc.AtRefuse?
    case Forwarded(_, response, _) => pc == AtReply(response)
    case Raised => if n <= 2 then pc.Ended? else pc.AtRemove?
    case Removed => pc.Ended?
    case _ => pc.AtIdleCheck?       // set up, ignored, or replied
  }

  lemma LocatedStep(cfg: Config, ip: Ip, l: Local, h: History, e: What)
    requires Shape(cfg, ip, l, h) && Enabled(cfg, ip, l, e)
    requires h == [] ==> l.pc.AtWhitelist?
    requires h != [] ==> Located(h[|h| - 1], |h|, l.pc)
    ensures Located(e, |h| + 1, After(l, e).pc)
  {
    hide Genuine, Pending;
    if e == Raised && |h| == 1 {
      assert l.pc.AtAdmit?;
    }
    if e == Raised && |h| >= 2 {
      assert !l.pc.AtWhitelist? && !l.pc.AtAdmit?;
    }
  }

  lemma {:induction false} LegalLocated(cfg: Config, ip: Ip, h: History)
    requires Legal(cfg, ip, h)
    ensures h == [] ==> Replay(h).pc.AtWhitelist?
    ensures h != [] ==> Located(h[|h| - 1], |h|, Replay(h).pc)
  {
    hide Shape, Enabled, After, Located;
    if h != [] {
      var front, e := h[..|h| - 1], h[|h| - 1];
      LegalLocated(cfg, ip, front);
      LegalShape(cfg, ip, front);
      LocatedStep(cfg, ip, Replay(front), front, e);
    }
  }

  lemma EnabledPair(cfg: Config, ip: Ip, last: What, n: nat, l: Local, e: What)
    requires Located(last, n, l.pc) && Enabled(cfg, ip, l, e)
    ensures e == Removed ==> 3 <= n && (last.FrameFailed? || last == WentIdle || last == Raised)
    ensures last.FrameFailed? || last == WentIdle || last == Raised ==> e == Removed
    ensures last == SetUp || last == SentError || last.SentResponse? || last.Ignored? ==>
              e == StillActive || e == WentIdle || e == Raised
    ensures last == Allowed ==> e == Admitted || e == CapRefused || e == Raised
    ensures last == Admitted ==> e.Handshaken? || e == Raised
    ensures last.Handshaken? ==> e == SetUp || e == Raised
    ensures last == StillActive ==> e.Accepted? || e.Ignored? || e.FrameFailed?
    ensures last.Accepted? ==> e == Touched || e == Raised
    ensures last == Touched ==> e.Looked? || e == Raised
    ensures last.Looked? ==> e.Verdict? || e == Raised
    ensures last.Verdict? ==> if last.ok then e.Forwarded? && e.granted == last.at else e == SentError || e == Raised
    ensures last.Forwarded? ==> e == SentResponse(last.response) || e == Raised
    ensures !last.Removed? && !last.Denied? && !last.CapRefused?
  {
    hide Genuine;
  }

  /** The order of events in every history. In particular the cleanup comes
      only after a frame error, an idle break or an exception, and after every
      reply, and every frame of another type, the loop goes on. */
  lemma EventOrder(cfg: Config, ip: Ip, h: History, i: nat)
    requires Legal(cfg, ip, h) && i < |h|
    ensures i == 0 ==> h[i] == Allowed || h[i] == Denied || h[i] == Raised
    ensures h[i] == Removed ==> 3 <= i && (h[i - 1].FrameFailed? || h[i - 1] == WentIdle || h[i - 1] == Raised)
    ensures 0 < i && (h[i - 1].FrameFailed? || h[i - 1] == WentIdle || h[i - 1] == Raised) ==> h[i] == Removed
    ensures 0 < i && (h[i - 1] == SetUp || h[i - 1] == SentError || h[i - 1].SentResponse? || h[i - 1].Ignored?) ==>
              h[i] == StillActive || h[i] == WentIdle || h[i] == Raised
    ensures 0 < i && h[i - 1] == StillActive ==> h[i].Accepted? || h[i].Ignored? || h[i].FrameFailed?
    ensures 0 < i && h[i - 1].Accepted? ==> h[i] == Touched || h[i] == Raised
    ensures 0 < i && h[i - 1] == Touched ==> h[i].Looked? || h[i] == Raised
    ensures 0 < i && h[i - 1].Looked? ==> h[i].Verdict? || h[i] == Raised
    ensures 0 < i && h[i - 1].Verdict? && h[i - 1].ok ==> h[i].Forwarded? && h[i].granted == h[i - 1].at
    ensures 0 < i && h[i - 1].Verdict? && !h[i - 1].ok ==> h[i] == SentError || h[i] == Raised
    ensures 0 < i && h[i - 1].Forwarded? ==> h[i] == SentResponse(h[i - 1].response) || h[i] == Raised
    ensures 0 < i ==> !h[i - 1].Removed? && !h[i - 1].Denied? && !h[i - 1].CapRefused?
  {
    hide Genuine, Located, After;
    LegalPrefix(cfg, ip, h, i);
    LegalLocated(cfg, ip, h[..i]);
    if i > 0 {
      assert h[..i][i - 1] == h[i - 1];
      hide Enabled;
      EnabledPair(cfg, ip, h[i - 1], i, Replay(h[..i]), h[i]);
    }
  }

  lemma CameFrom(cfg: Config, ip: Ip, last: What, n: nat, l: Local, e: What)
    requires Located(last, n, l.pc) && Enabled(cfg, ip, l, e)
    ensures e.SentResponse? ==> last.Forwarded? && last.response == e.response
    ensures e == SentError ==> last.Verdict? && !last.ok
    ensures e.Forwarded? ==> last == Verdict(true, e.granted)
    ensures e.Verdict? ==> last.Looked?
    ensures e.Looked? ==> last == Touched
    ensures e == Touched ==> last.Accepted?
    ensures e.Accepted? ==> last == StillActive && e.message.typ.DataRequest?
  {
    hide Genuine;
  }

  /** No reply without its cause: a response directly follows the forward whose
      result it carries, that follows its grant, and an ERROR follows a refusal;
      a verdict follows the lookup, the touch and the accepted frame. */
  lemma EventCauses(cfg: Config, ip: Ip, h: History, i: nat)
    requires Legal(cfg, ip, h) && i < |h|
    ensures h[i].SentResponse? ==> 0 < i && h[i - 1].Forwarded? && h[i - 1].response == h[i].response
    ensures h[i] == SentError ==> 0 < i && h[i - 1].Verdict? && !h[i - 1].ok
    ensures h[i].Forwarded? ==> 0 < i && h[i - 1] == Verdict(true, h[i].granted)
    ensures h[i].Verdict? ==> 0 < i && h[i - 1].Looked?
    ensures h[i].Looked? ==> 0 < i && h[i - 1] == Touched
    ensures h[i] == Touched ==> 0 < i && h[i - 1].Accepted?
    ensures h[i].Accepted? ==> 0 < i && h[i - 1] == StillActive && h[i].message.typ.DataRequest?
  {
    hide Genuine, Located, After;
    LegalPrefix(cfg, ip, h, i);
    LegalLocated(cfg, ip, h[..i]);
    if i > 0 {
      assert h[..i][i - 1] == h[i - 1];
      hide Enabled;
      CameFrom(cfg, ip, h[i - 1], i, Replay(h[..i]), h[i]);
    }
  }

  /** The connection is closed and its thread has nothing left to do. */
  ghost predicate Over(h: History) {
    h != [] && var last := h[|h| - 1];
    last == Denied || last == CapRefused || last == Removed || (last == Raised && |h| <= 2)
  }

  lemma EndedIsOver(cfg: Config, ip: Ip, h: History)
    requires Legal(cfg, ip, h)
    ensures Replay(h).pc.Ended? <==> Over(h)
  {
    LegalLocated(cfg, ip, h);
  }

  // ---------------------------------------------------------------------
  // Reply discipline
  // ---------------------------------------------------------------------

  datatype Reply = ErrorReply | DataReply(data: Bytes)

  /** All that happened to one accepted request. */
  datatype Round = Round(request: Bytes, verdicts: seq<bool>, results: seq<Bytes>, replies: seq<Reply>)
  {
    /** Exactly one reply: ERROR if rate-limited, otherwise the forwarder's result. */
    predicate Complete() {
      || (verdicts == [false] && results == [] && replies == [ErrorReply])
      || (verdicts == [true] && |results| == 1 && replies == [DataReply(results[0])])
    }

    /** Not answered yet. */
    predicate Waiting() {
      && replies == []
      && ((verdicts == [] && results == []) || (verdicts == [false] && results == []) || (verdicts == [true] && |results| <= 1))
    }
  }

  /** What an event adds to the round of the latest accepted request. */
  function Credit(r: Round, e: What): Round {
    match e
    case Verdict(ok, _) => r.(verdicts := r.verdicts + [ok])
    case Forwarded(_, response, _) => r.(results := r.results + [response])
    case SentError => r.(replies := r.replies + [ErrorReply])
    case SentResponse(response) => r.(replies := r.replies + [DataReply(response)])
    case _ => r
  }

  const STRAY := Round([], [], [], [])

  /** A stray event before the first request would make a round of its own. */
  function ExtendRounds(rs: seq<Round>, e: What): seq<Round> {
    if e.Accepted? then rs + [Round(e.message.payload, [], [], [])]
    else if rs != [] then rs[..|rs| - 1] + [Credit(rs[|rs| - 1], e)]
    else if Credit(STRAY, e) != STRAY then [Credit(STRAY, e)]
    else []
  }

  function Rounds(h: History): seq<Round> {
    if h == [] then [] else ExtendRounds(Rounds(h[..|h| - 1]), h[|h| - 1])
  }

  /** The request accepted last is where the program counter says it is. */
  ghost predicate LastRound(pc: Pc, r: Round) {
    match pc
    case AtTouch(q) => r == Round(q, [], [], [])
    case AtLookup(q) => r == Round(q, [], [], [])
    case AtConsume(q) => r == Round(q, [], [], [])
    case AtForward(q, _) => r == Round(q, [true], [], [])
    case AtRefuse => r.verdicts == [false] && r.results == [] && r.replies == []
    case AtReply(d) => r.verdicts == [true] && r.results == [d] && r.replies == []
    case AtRemove => r.Waiting() || r.Complete()
    case Ended => r.Waiting() || r.Complete()
    case _ => r.Complete()
  }

  predicate Serving(pc: Pc) {
    pc.AtTouch? || pc.AtLookup? || pc.AtConsume? || pc.AtForward? || pc.AtRefuse? || pc.AtReply?
  }

  ghost predicate Disciplined(pc: Pc, rs: seq<Round>) {
    && (forall i | 0 <= i < |rs| - 1 :: rs[i].Complete())
    && (rs != [] ==> LastRound(pc, rs[|rs| - 1]))
    && (Serving(pc) ==> rs != [])
  }

  lemma LastRoundStep(cfg: Config, ip: Ip, l: Local, r: Round, e: What)
    requires LastRound(l.pc, r) && Enabled(cfg, ip, l, e) && !e.Accepted?
    ensures LastRound(After(l, e).pc, Credit(r, e))
  {
    hide Genuine;
  }

  lemma StrayStep(cfg: Config, ip: Ip, l: Local, e: What)
    requires !Serving(l.pc) && Enabled(cfg, ip, l, e) && !e.Accepted?
    ensures Credit(STRAY, e) == STRAY && !Serving(After(l, e).pc)
  {
    hide Genuine;
  }

  lemma AcceptStep(cfg: Config, ip: Ip, l: Local, rs: seq<Round>, e: What)
    requires Disciplined(l.pc, rs) && Enabled(cfg, ip, l, e) && e.Accepted?
    ensures Disciplined(After(l, e).pc, ExtendRounds(rs, e))
  {
    hide Genuine;
    assert l.pc.AtRecv?;
    assert ExtendRounds(rs, e)[..|rs|] == rs;
  }

  lemma DisciplineStep(cfg: Config, ip: Ip, l: Local, rs: seq<Round>, e: What)
    requires Disciplined(l.pc, rs) && Enabled(cfg, ip, l, e)
    ensures Disciplined(After(l, e).pc, ExtendRounds(rs, e))
  {
    hide Genuine, Enabled, After, LastRound, Credit;
    if e.Accepted? {
      AcceptStep(cfg, ip, l, rs, e);
    } else if rs != [] {
      LastRoundStep(cfg, ip, l, rs[|rs| - 1], e);
      assert ExtendRounds(rs, e)[..|rs| - 1] == rs[..|rs| - 1];
    } else {
      StrayStep(cfg, ip, l, e);
    }
  }

  /** Each accepted DATA_REQUEST gets, in order, exactly one reply; only the
      last one may go without, and only while it is being served or because
      the connection ended. Other frames get none. */
  lemma {:induction false} OneReplyEach(cfg: Config, ip: Ip, h: History)
    requires Legal(cfg, ip, h)
    ensures Disciplined(Replay(h).pc, Rounds(h))
  {
    hide Enabled, After, ExtendRounds, Disciplined;
    if h == [] {
      NoRounds();
    } else {
      OneReplyEach(cfg, ip, h[..|h| - 1]);
      DisciplineStep(cfg, ip, Replay(h[..|h| - 1]), Rounds(h[..|h| - 1]), h[|h| - 1]);
    }
  }

  lemma NoRounds()
    ensures Disciplined(START.pc, Rounds([]))
  {
  }
}
