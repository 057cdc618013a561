/**
 server/server_main.py with any number of handler threads over one shared
 RateLimiter: a state machine whose steps are the atomic actions of single
 threads, in any order.
 */
module Server {
  import opened Bytes
  import opened Bucket
  import opened Limiter
  import opened Framing
  import opened Handler

  type Tid = nat

  /** A handler thread; `bucket` is the reference that check_rate looked up. */
  datatype Worker = Worker(ip: Ip, local: Local, bucket: nat)

  /** What the threads share. Buckets live on a heap, because check_rate uses
      the bucket it found after it has left the limiter's lock. */
  datatype Shared = Shared(heap: seq<Level>, buckets: map<Ip, nat>, tables: Tables)

  datatype Event = Event(tid: Tid, ip: Ip, time: real, what: What)

  datatype State = State(clock: real, shared: Shared, workers: map<Tid, Worker>, log: seq<Event>)

  /** What the environment decides about a step. */
  datatype Choice =
    | Spawn(ip: Ip)              // accept() and a new thread
    | Return                     // the call at hand returns
    | Throw                      // the call at hand raises
    | Agree(keys: Keys)          // server_handshake returns these keys
    | Stream(bytes: Bytes)       // recv_frame finds these bytes, then the end of the stream
    | Respond(response: Bytes)   // forward_request's result, or the 500 body made of its exception

  datatype Input = Input(tid: Tid, now: real, choice: Choice)

  datatype Act = Act(what: What, shared: Shared, bucket: nat)

  /** One atomic action of a thread that has not ended. */
  function Perform(cfg: Config, sh: Shared, w: Worker, now: real, ch: Choice): Act
    requires !w.local.pc.Ended?
  {
    var pc := w.local.pc;
    var same := (e: What) => Act(e, sh, w.bucket);
    if ch.Throw? && !pc.AtRecv? && !pc.AtForward? && !pc.AtRemove? then same(Raised)
    else match pc
      case AtWhitelist => same(if cfg.allowed(w.ip) then Allowed else Denied)
      case AtAdmit =>
        var (tables, ok) := TryAdd(cfg.limits, sh.tables, w.ip, now);
        Act(if ok then Admitted else CapRefused, sh.(tables := tables), w.bucket)
      case AtHandshake => same(if ch.Agree? then Handshaken(ch.keys) else Raised)
      case AtSetup => same(SetUp)
      case AtIdleCheck => same(if IsIdle(cfg.limits, sh.tables, w.ip, now) then WentIdle else StillActive)
      case AtRecv => same(if ch.Stream? then Received(cfg.crypto, w.local.keys, ch.bytes) else FrameFailed(TimedOut))
      case AtTouch(_) => Act(Touched, sh.(tables := Touch(sh.tables, w.ip, now)), w.bucket)
      case AtLookup(_) =>
        if w.ip in sh.buckets then Act(Looked(false), sh, sh.buckets[w.ip])
        else
          Act(Looked(true),
              sh.(heap := sh.heap + [Fresh(cfg.limits.BucketParams(), now)], buckets := sh.buckets[w.ip := |sh.heap|]),
              |sh.heap|)
      case AtConsume(_) =>
        if w.bucket < |sh.heap| then
          var (level, ok) := Take(cfg.limits.BucketParams(), sh.heap[w.bucket], now, 1.0);
          Act(Verdict(ok, now), sh.(heap := sh.heap[w.bucket := level]), w.bucket)
        else
          same(Raised)   // no thread gets here: see Rated below
      case AtRefuse => same(SentError)
      case AtForward(request, granted) => same(Forwarded(request, if ch.Respond? then ch.response else [], granted))
      case AtReply(response) => same(SentResponse(response))
      case AtRemove => Act(Removed, sh.(tables := Remove(sh.tables, w.ip)), w.bucket)
  }

  /** The event of a recv_frame call: it reads one frame off the stream or fails. */
  function Received(c: Crypto, keys: Keys, stream: Bytes): What {
    var (r, used) := Receive(c, keys, stream);
    match r
    case Err(e) => FrameFailed(e)
    case Ok(m) => if m.typ.DataRequest? then Accepted(stream[..used], m) else Ignored(m)
  }

  /** A thread's action takes effect and is logged. */
  function Commit(s: State, tid: Tid, now: real, a: Act): State
    requires tid in s.workers
  {
    var w := s.workers[tid];
    State(
      now, a.shared,
      s.workers[tid := Worker(w.ip, After(w.local, a.what), a.bucket)],
      s.log + [Event(tid, w.ip, now, a.what)])
  }

  function SpawnThread(s: State, tid: Tid, now: real, ip: Ip): State {
    s.(clock := now, workers := s.workers[tid := Worker(ip, START, 0)])
  }

  /** The clock never runs backwards; an input that fits no thread does nothing. */
  function Next(cfg: Config, s: State, i: Input): State {
    if i.now < s.clock then s
    else if i.choice.Spawn? then
      if i.tid in s.workers then s else SpawnThread(s, i.tid, i.now, i.choice.ip)
    else if i.tid !in s.workers || s.workers[i.tid].local.pc.Ended? then s
    else Commit(s, i.tid, i.now, Perform(cfg, s.shared, s.workers[i.tid], i.now, i.choice))
  }

  function Init(t0: real): State {
    State(t0, Shared([], map[], EMPTY_TABLES), map[], [])
  }

  /** Every interleaving is the run of some input sequence. */
  function Run(cfg: Config, t0: real, inputs: seq<Input>): State {
    if inputs == [] then Init(t0)
    else Next(cfg, Run(cfg, t0, inputs[..|inputs| - 1]), inputs[|inputs| - 1])
  }

  // ---------------------------------------------------------------------
  // Threads follow the handler
  // ---------------------------------------------------------------------

  /** The events of one thread. */
  function HistoryOf(log: seq<Event>, tid: Tid): History {
    if log == [] then [] else
    var e := log[|log| - 1];
    HistoryOf(log[..|log| - 1], tid) + if e.tid == tid then [e.what] else []
  }

  lemma HistoryAppend(log: seq<Event>, e: Event, tid: Tid)
    ensures HistoryOf(log + [e], tid) == HistoryOf(log, tid) + if e.tid == tid then [e.what] else []
  {
    assert (log + [e])[..|log|] == log;
  }

  ghost predicate Follows(cfg: Config, w: Worker, h: History) {
    Legal(cfg, w.ip, h) && w.local == Replay(h)
  }

  /** Every thread's history is one that the handler can produce. */
  ghost predicate Threaded(cfg: Config, s: State) {
    && (forall tid | tid in s.workers :: Follows(cfg, s.workers[tid], HistoryOf(s.log, tid)))
    && (forall tid | tid !in s.workers :: HistoryOf(s.log, tid) == [])
    && (forall e | e in s.log :: e.tid in s.workers && e.ip == s.workers[e.tid].ip)
  }

  lemma ReceivedIsEnabled(c: Crypto, keys: Keys, stream: Bytes)
    ensures var e := Received(c, keys, stream);
            || (e.Accepted? && e.message.typ.DataRequest? && Genuine(c, keys, e.raw, e.message))
            || (e.Ignored? && !e.message.typ.DataRequest?)
            || e.FrameFailed?
  {
    var (r, used) := Receive(c, keys, stream);
    if r.Ok? {
      var (f, n) := Scan(c, keys.MacKey(), stream);
      ScanAcceptsExactlyPrinted(c, keys.MacKey(), stream, f.value, n);
      ScanAcceptsExactlyPrinted(c, keys.MacKey(), stream[..n], f.value, n);
      assert stream[..n][..n] == stream[..n];
    }
  }

  /** Nor is a good frame ever missed: whatever bytes follow it, a frame sent
      under the session's keys is accepted if it is a DATA_REQUEST, and otherwise
      skipped. */
  lemma FrameIsReceived(c: Crypto, keys: Keys, m: Message, nonce: Nonce, rest: Bytes)
    requires c.Sound() && Encode(c, keys, m, nonce).Ok?
    ensures var wire := Encode(c, keys, m, nonce).value;
            Received(c, keys, wire + rest) == if m.typ == DataRequest then Accepted(wire, m) else Ignored(m)
  {
    hide Receive, Encode;
    var wire := Encode(c, keys, m, nonce).value;
    RoundTrip(c, keys, m, nonce, rest);
    assert (wire + rest)[..|wire|] == wire;
  }

  lemma ReceivedKind(c: Crypto, keys: Keys, stream: Bytes)
    ensures var e := Received(c, keys, stream); e.Accepted? || e.Ignored? || e.FrameFailed?
  {
    hide Receive;
  }

  lemma PerformIsEnabled(cfg: Config, sh: Shared, w: Worker, now: real, ch: Choice)
    requires !w.local.pc.Ended?
    ensures Enabled(cfg, w.ip, w.local, Perform(cfg, sh, w, now, ch).what)
  {
    hide Genuine, Received;
    if w.local.pc.AtRecv? && ch.Stream? {
      ReceivedIsEnabled(cfg.crypto, w.local.keys, ch.bytes);
    }
  }

  lemma LegalAppend(cfg: Config, ip: Ip, h: History, e: What)
    requires Legal(cfg, ip, h) && Enabled(cfg, ip, Replay(h), e)
    ensures Legal(cfg, ip, h + [e]) && Replay(h + [e]) == After(Replay(h), e)
  {
    hide Enabled, After;
    assert (h + [e])[..|h|] == h;
  }

  lemma NextThreaded(cfg: Config, s: State, i: Input)
    requires Threaded(cfg, s)
    ensures Threaded(cfg, Next(cfg, s, i))
  {
    hide Enabled, Perform, Follows, Commit;
    if i.choice.Spawn? {
      SpawnFollows(cfg, i.choice.ip);
    } else if i.tid in s.workers && !s.workers[i.tid].local.pc.Ended? {
      var w := s.workers[i.tid];
      PerformIsEnabled(cfg, s.shared, w, i.now, i.choice);
      CommitThreaded(cfg, s, i.tid, i.now, Perform(cfg, s.shared, w, i.now, i.choice));
    }
  }

  lemma CommitThreaded(cfg: Config, s: State, tid: Tid, now: real, a: Act)
    requires Threaded(cfg, s)
    requires tid in s.workers && Enabled(cfg, s.workers[tid].ip, s.workers[tid].local, a.what)
    ensures Threaded(cfg, Commit(s, tid, now, a))
  {
    hide Enabled, After, Legal, Replay;
    var w, s' := s.workers[tid], Commit(s, tid, now, a);
    var e := Event(tid, w.ip, now, a.what);
    LegalAppend(cfg, w.ip, HistoryOf(s.log, tid), a.what);
    forall t
      ensures HistoryOf(s'.log, t) == HistoryOf(s.log, t) + if t == tid then [a.what] else []
    {
      HistoryAppend(s.log, e, t);
    }
    assert HistoryOf(s'.log, tid) == HistoryOf(s.log, tid) + [a.what];
    assert Follows(cfg, s'.workers[tid], HistoryOf(s'.log, tid));
    forall t | t in s'.workers && t != tid
      ensures Follows(cfg, s'.workers[t], HistoryOf(s'.log, t))
    {
      assert HistoryOf(s'.log, t) == HistoryOf(s.log, t);
    }
  }

  lemma SpawnFollows(cfg: Config, ip: Ip)
    ensures Follows(cfg, Worker(ip, START, 0), [])
  {
  }

  lemma {:induction false} RunThreaded(cfg: Config, t0: real, inputs: seq<Input>)
    ensures Threaded(cfg, Run(cfg, t0, inputs))
  {
    hide Next;
    if inputs != [] {
      RunThreaded(cfg, t0, inputs[..|inputs| - 1]);
      NextThreaded(cfg, Run(cfg, t0, inputs[..|inputs| - 1]), inputs[|inputs| - 1]);
    }
  }
}
