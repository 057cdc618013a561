/**
 Idle tracking, gate ordering and replies over all runs of the whole server.
 */
module ServerProperties {
  import opened Bytes
  import opened Limiter
  import opened Framing
  import opened Handler
  import opened Server
  import opened Accounting
  import opened Bucket
  import opened RateBound

  /** An admission or an accepted request of the IP. */
  predicate IsActivity(e: Event, ip: Ip) {
    e.ip == ip && (e.what == Admitted || e.what == Touched)
  }

  function LatestActivity(log: seq<Event>, ip: Ip): Option<real> {
    if log == [] then None else
    var e := log[|log| - 1];
    if IsActivity(e, ip) then Some(e.time) else LatestActivity(log[..|log| - 1], ip)
  }

  function Recorded(t: Tables, ip: Ip): Option<real> {
    if ip in t.lastActivity then Some(t.lastActivity[ip]) else None
  }

  ghost predicate InOrder(log: seq<Event>, clock: real) {
    && (forall i, j | 0 <= i <= j < |log| :: log[i].time <= log[j].time)
    && (forall i | 0 <= i < |log| :: log[i].time <= clock)
  }

  ghost predicate ActivityKnown(s: State) {
    && InOrder(s.log, s.clock)
    && (forall ip :: Recorded(s.shared.tables, ip) == LatestActivity(s.log, ip))
    && (forall t | t in s.workers && Holding(s.workers[t].local.pc) :: s.workers[t].ip in s.shared.tables.lastActivity)
  }

  lemma {:induction false} LatestIsLatest(log: seq<Event>, ip: Ip, clock: real)
    requires InOrder(log, clock)
    ensures LatestActivity(log, ip).None? ==> forall i | 0 <= i < |log| :: !IsActivity(log[i], ip)
    ensures LatestActivity(log, ip).Some? ==>
              && (forall i | 0 <= i < |log| && IsActivity(log[i], ip) :: log[i].time <= LatestActivity(log, ip).value)
              && (exists i | 0 <= i < |log| :: IsActivity(log[i], ip) && log[i].time == LatestActivity(log, ip).value)
  {
    if log != [] {
      var front := log[..|log| - 1];
      LatestIsLatest(front, ip, clock);
      if !IsActivity(log[|front|], ip) && LatestActivity(front, ip).Some? {
        var i :| 0 <= i < |front| && IsActivity(front[i], ip) && front[i].time == LatestActivity(front, ip).value;
        assert log[i] == front[i];
      }
    }
  }

  lemma PerformActivity(cfg: Config, sh: Shared, w: Worker, now: real, ch: Choice)
    requires !w.local.pc.Ended?
    ensures var a := Perform(cfg, sh, w, now, ch);
            a.shared.tables.lastActivity ==
            if a.what == Admitted || a.what == Touched then sh.tables.lastActivity[w.ip := now]
            else sh.tables.lastActivity
  {
    hide Received;
    if w.local.pc.AtRecv? && ch.Stream? {
      ReceivedKind(cfg.crypto, w.local.keys, ch.bytes);
    }
  }

  lemma CommitActivity(cfg: Config, s: State, tid: Tid, now: real, ch: Choice)
    requires ActivityKnown(s) && tid in s.workers && !s.workers[tid].local.pc.Ended? && s.clock <= now
    ensures ActivityKnown(Commit(s, tid, now, Perform(cfg, s.shared, s.workers[tid], now, ch)))
  {
    hide Perform, Enabled, After, Holding;
    var w := s.workers[tid];
    var a := Perform(cfg, s.shared, w, now, ch);
    var s' := Commit(s, tid, now, a);
    PerformIsEnabled(cfg, s.shared, w, now, ch);
    PerformActivity(cfg, s.shared, w, now, ch);
    HoldingStep(cfg, w.ip, w.local, a.what);
    assert s'.log[..|s.log|] == s.log;
    forall ip
      ensures Recorded(s'.shared.tables, ip) == LatestActivity(s'.log, ip)
    {
      assert Recorded(s.shared.tables, ip) == LatestActivity(s.log, ip);
    }
  }

  lemma SpawnActivity(s: State, tid: Tid, now: real, ip: Ip)
    requires ActivityKnown(s) && tid !in s.workers && s.clock <= now
    ensures ActivityKnown(SpawnThread(s, tid, now, ip))
  {
  }

  /** In every run the activity time of an IP is present for each admitted
      thread and is the latest admission or accepted request of the IP. */
  lemma {:induction false} RunActivity(cfg: Config, t0: real, inputs: seq<Input>)
    ensures ActivityKnown(Run(cfg, t0, inputs))
  {
    hide Perform, Commit, SpawnThread;
    if inputs != [] {
      var s, i := Run(cfg, t0, inputs[..|inputs| - 1]), inputs[|inputs| - 1];
      RunActivity(cfg, t0, inputs[..|inputs| - 1]);
      if s.clock <= i.now {
        if i.choice.Spawn? && i.tid !in s.workers {
          SpawnActivity(s, i.tid, i.now, i.choice.ip);
        } else if i.tid in s.workers && !s.workers[i.tid].local.pc.Ended? {
          CommitActivity(cfg, s, i.tid, i.now, i.choice);
        }
      }
    }
  }

  /** The event that an input adds to a run, if any. */
  ghost predicate Adds(cfg: Config, s: State, i: Input, e: Event) {
    Next(cfg, s, i).log == s.log + [e]
  }

  lemma AddedBy(cfg: Config, s: State, i: Input, e: Event)
    requires Adds(cfg, s, i, e)
    ensures s.clock <= i.now && !i.choice.Spawn? && i.tid in s.workers && !s.workers[i.tid].local.pc.Ended?
    ensures e == Event(i.tid, s.workers[i.tid].ip, i.now,
                       Perform(cfg, s.shared, s.workers[i.tid], i.now, i.choice).what)
  {
    hide Perform;
    assert (s.log + [e])[|s.log|] == e;
    assert |s.log + [e]| == |s.log| + 1;
    var w := s.workers[i.tid];
    var x := Event(i.tid, w.ip, i.now, Perform(cfg, s.shared, w, i.now, i.choice).what);
    assert (s.log + [x])[|s.log|] == x;
  }

  lemma IdleVerdict(cfg: Config, sh: Shared, w: Worker, now: real, ch: Choice)
    requires !w.local.pc.Ended?
    ensures var e := Perform(cfg, sh, w, now, ch).what;
            && (e == WentIdle ==> w.local.pc.AtIdleCheck? && IsIdle(cfg.limits, sh.tables, w.ip, now))
            && (e == StillActive ==> w.local.pc.AtIdleCheck? && !IsIdle(cfg.limits, sh.tables, w.ip, now))
  {
    hide Received;
    if w.local.pc.AtRecv? && ch.Stream? {
      ReceivedKind(cfg.crypto, w.local.keys, ch.bytes);
    }
  }

  /** A thread takes the idle break only if its IP had no admission and no
      accepted request within the timeout, and goes on only if it had one. */
  lemma IdleBreakIsSound(cfg: Config, t0: real, inputs: seq<Input>, i: Input, e: Event)
    requires Adds(cfg, Run(cfg, t0, inputs), i, e)
    ensures var log := Run(cfg, t0, inputs).log;
            && (e.what == WentIdle ==>
                  forall k | 0 <= k < |log| && IsActivity(log[k], e.ip) :: e.time - log[k].time > cfg.limits.idleTimeout)
            && (e.what == StillActive ==>
                  exists k | 0 <= k < |log| :: IsActivity(log[k], e.ip) && e.time - log[k].time <= cfg.limits.idleTimeout)
  {
    hide Perform, Next, Run, Holding;
    var s := Run(cfg, t0, inputs);
    AddedBy(cfg, s, i, e);
    RunActivity(cfg, t0, inputs);
    IdleVerdict(cfg, s.shared, s.workers[i.tid], i.now, i.choice);
    LatestIsLatest(s.log, e.ip, s.clock);
    assert Recorded(s.shared.tables, e.ip) == LatestActivity(s.log, e.ip);
  }

  /** The missing-entry branch of is_idle is never taken by an admitted thread. */
  lemma AdmittedThreadIsTracked(cfg: Config, t0: real, inputs: seq<Input>, tid: Tid)
    requires tid in Run(cfg, t0, inputs).workers && Holding(Run(cfg, t0, inputs).workers[tid].local.pc)
    ensures var s := Run(cfg, t0, inputs);
            var ip := s.workers[tid].ip;
            ip in s.shared.tables.lastActivity && LatestActivity(s.log, ip) == Some(s.shared.tables.lastActivity[ip])
  {
    hide Run;
    RunActivity(cfg, t0, inputs);
    var s := Run(cfg, t0, inputs);
    assert Recorded(s.shared.tables, s.workers[tid].ip) == LatestActivity(s.log, s.workers[tid].ip);
  }

  // ---------------------------------------------------------------------
  // Gate ordering and replies, thread by thread
  // ---------------------------------------------------------------------

  lemma ForwardNeedsPc(cfg: Config, ip: Ip, l: Local, e: What)
    requires Enabled(cfg, ip, l, e) && e.Forwarded?
    ensures l.pc == AtForward(e.request, e.granted) && Holding(l.pc)
  {
    hide Genuine;
  }

  /** In every reachable state a call of forward_request belongs to a thread
      whose IP is whitelisted, which is counted within the caps, completed the
      handshake, and whose frame passed the MAC, decryption and type checks and
      then the rate check. */
  lemma ForwardsPassAllGates(cfg: Config, t0: real, inputs: seq<Input>, i: Input, e: Event)
    requires Adds(cfg, Run(cfg, t0, inputs), i, e) && e.what.Forwarded?
    ensures var s := Run(cfg, t0, inputs);
            var h := HistoryOf(s.log, e.tid);
            var n := |h|;
            && cfg.allowed(e.ip)
            && 1 <= ConnectionsOf(s.shared.tables, e.ip) <= Max0(cfg.limits.maxPerIp)
            && 1 <= s.shared.tables.total <= Max0(cfg.limits.maxTotal)
            && 8 <= n
            && h[0] == Allowed && h[1] == Admitted && h[2].Handshaken? && h[3] == SetUp
            && h[n - 4].Accepted? && h[n - 4].message.typ.DataRequest? && h[n - 4].message.payload == e.what.request
            && Genuine(cfg.crypto, h[2].keys, h[n - 4].raw, h[n - 4].message)
            && h[n - 3] == Touched && h[n - 2].Looked? && h[n - 1] == Verdict(true, e.what.granted)
  {
    hide Perform, Next, Run, Enabled, Genuine, Consistent, Holders, ConnectionsOf, Legal, Replay;
    var s := Run(cfg, t0, inputs);
    AddedBy(cfg, s, i, e);
    var w := s.workers[i.tid];
    var h := HistoryOf(s.log, i.tid);
    RunThreaded(cfg, t0, inputs);
    RunAccounted(cfg, t0, inputs);
    PerformIsEnabled(cfg, s.shared, w, i.now, i.choice);
    ForwardNeedsPc(cfg, w.ip, w.local, e.what);
    HolderIs(s.workers, i.tid, e.ip);
    CountedEntry(s.shared.tables, e.ip);
    LegalAppend(cfg, w.ip, h, e.what);
    ForwardIsGated(cfg, w.ip, h + [e.what], |h|);
  }

  /** Reply discipline of every connection of the server: one reply per accepted
      request, in order, and after the first frame error, idle break or
      exception nothing but the cleanup. */
  lemma RepliesAreDisciplined(cfg: Config, t0: real, inputs: seq<Input>, tid: Tid)
    requires tid in Run(cfg, t0, inputs).workers
    ensures var s := Run(cfg, t0, inputs);
            var h := HistoryOf(s.log, tid);
            && Disciplined(s.workers[tid].local.pc, Rounds(h))
            && (forall i | 0 <= i < |h| && Final(h[i]) :: i == |h| - 1 || (i == |h| - 2 && h[|h| - 1] == Removed))
  {
    hide Run, Legal, Replay, Disciplined, Final;
    RunThreaded(cfg, t0, inputs);
    var s := Run(cfg, t0, inputs);
    var h, ip := HistoryOf(s.log, tid), s.workers[tid].ip;
    OneReplyEach(cfg, ip, h);
    forall i | 0 <= i < |h| && Final(h[i])
      ensures i == |h| - 1 || (i == |h| - 2 && h[|h| - 1] == Removed)
    {
      NothingAfterFinal(cfg, ip, h, i);
    }
  }

  // ---------------------------------------------------------------------
  // Every call has its event
  // ---------------------------------------------------------------------

  lemma PerformReturns(cfg: Config, sh: Shared, w: Worker, now: real, ch: Choice)
    requires !ch.Throw? && !w.local.pc.Ended?
    ensures var e := Perform(cfg, sh, w, now, ch).what;
            match w.local.pc
            case AtWhitelist => e == if cfg.allowed(w.ip) then Allowed else Denied
            case AtHandshake => e == if ch.Agree? then Handshaken(ch.keys) else Raised
            case AtSetup => e == SetUp
            case AtIdleCheck => e == StillActive || e == WentIdle
            case AtRecv =>
              e == if ch.Stream? then Received(cfg.crypto, w.local.keys, ch.bytes) else FrameFailed(TimedOut)
            case AtTouch(_) => e == Touched
            case AtLookup(_) => e.Looked?
            case AtRefuse => e == SentError
            case AtForward(request, granted) => e.Forwarded? && e.request == request && e.granted == granted && (ch.Respond? ==> e.response == ch.response)
            case AtReply(response) => e == SentResponse(response)
            case AtRemove => e == Removed
            case _ => true
  {
    hide Received, TryAdd, IsIdle, Touch, Remove, Take;
  }

  lemma PerformThrows(cfg: Config, sh: Shared, w: Worker, now: real, ch: Choice)
    requires ch.Throw? && !w.local.pc.Ended?
    ensures var a := Perform(cfg, sh, w, now, ch);
            match w.local.pc
            case AtRecv => a.what == FrameFailed(TimedOut)
            case AtForward(request, granted) => a.what == Forwarded(request, [], granted)
            case AtRemove => a.what == Removed
            case _ => a.what == Raised && a.shared == sh
  {
  }

  /** Every accepted connection gets a thread of its own, with nothing done yet. */
  lemma NewConnection(cfg: Config, t0: real, inputs: seq<Input>, i: Input)
    requires var s := Run(cfg, t0, inputs); s.clock <= i.now && i.choice.Spawn? && i.tid !in s.workers
    ensures var s, s' := Run(cfg, t0, inputs), Next(cfg, Run(cfg, t0, inputs), i);
            && i.tid in s'.workers && s'.workers[i.tid].ip == i.choice.ip
            && s'.log == s.log && HistoryOf(s'.log, i.tid) == [] && !Over([])
            && s'.shared == s.shared
  {
    hide Run;
    RunThreaded(cfg, t0, inputs);
  }

  /** What is known of a thread that still runs, from its history alone. */
  lemma ThreadAt(cfg: Config, t0: real, inputs: seq<Input>, tid: Tid) returns (h: History, w: Worker)
    requires tid in Run(cfg, t0, inputs).workers
    ensures var s := Run(cfg, t0, inputs);
            && h == HistoryOf(s.log, tid) && w == s.workers[tid]
            && Legal(cfg, w.ip, h) && Shape(cfg, w.ip, w.local, h)
            && (h == [] ==> w.local.pc.AtWhitelist?)
            && (h != [] ==> Located(h[|h| - 1], |h|, w.local.pc))
            && (w.local.pc.Ended? <==> Over(h))
  {
    hide Run, Legal, Replay, Shape, Located, Over;
    RunThreaded(cfg, t0, inputs);
    var s := Run(cfg, t0, inputs);
    h, w := HistoryOf(s.log, tid), s.workers[tid];
    LegalShape(cfg, w.ip, h);
    LegalLocated(cfg, w.ip, h);
    EndedIsOver(cfg, w.ip, h);
  }

  /** The keys and the request that a running thread works with are those of
      its handshake and of the frame it accepted last. */
  lemma ThreadLocals(cfg: Config, ip: Ip, l: Local, h: History)
    requires Shape(cfg, ip, l, h)
    ensures l.pc.AtRecv? ==> 4 <= |h| && h[2] == Handshaken(l.keys)
    ensures l.pc.AtForward? ==> 4 <= |h| && h[|h| - 4].Accepted? && h[|h| - 4].message.payload == l.pc.request
  {
    hide Genuine;
    if 4 <= |h| {
      assert h[2] == h[..4][2];
    }
  }

  /** In every run, each call of a thread that has not ended and that does not
      raise takes effect as the handler's text says, told from what the thread
      did last: no gate, no request and no reply is skipped, and nothing is
      refused that the limits allow. */
  lemma ReturningCall(cfg: Config, t0: real, inputs: seq<Input>, i: Input) returns (e: What)
    requires var s := Run(cfg, t0, inputs);
             s.clock <= i.now && !i.choice.Spawn? && !i.choice.Throw?
             && i.tid in s.workers && !Over(HistoryOf(s.log, i.tid))
    ensures var s := Run(cfg, t0, inputs);
            var ip := s.workers[i.tid].ip;
            var h := HistoryOf(s.log, i.tid);
            && Next(cfg, s, i).log == s.log + [Event(i.tid, ip, i.now, e)]
            && if h == [] then e == if cfg.allowed(ip) then Allowed else Denied else
               match h[|h| - 1]
               case Allowed =>
                 e == if |Holders(s.workers, ip)| < cfg.limits.maxPerIp && |Everyone(s.workers)| < cfg.limits.maxTotal
                      then Admitted else CapRefused
               case Admitted => e == if i.choice.Agree? then Handshaken(i.choice.keys) else Raised
               case Handshaken(_) => e == SetUp
               case StillActive =>
                 4 <= |h| && h[2].Handshaken?
                 && e == if i.choice.Stream? then Received(cfg.crypto, h[2].keys, i.choice.bytes) else FrameFailed(TimedOut)
               case Accepted(_, _) => e == Touched
               case Touched => e.Looked?
               case Looked(_) =>
                 e == Verdict(Admits(Params(cfg.limits.rps, cfg.limits.burst), BucketLog(s.log, ip), i.now, 1.0), i.now)
               case Verdict(ok, at) =>
                 if ok then
                   && 4 <= |h| && h[|h| - 4].Accepted? && e.Forwarded? && e.granted == at
                   && e.request == h[|h| - 4].message.payload && (i.choice.Respond? ==> e.response == i.choice.response)
                 else e == SentError
               case Forwarded(_, response, _) => e == SentResponse(response)
               case WentIdle => e == Removed
               case FrameFailed(_) => e == Removed
               case Raised => e == Removed
               case _ =>
                 // set up, ignored, or replied: the head of the loop
                 if exists k | 0 <= k < |s.log| :: IsActivity(s.log[k], ip) && i.now - s.log[k].time <= cfg.limits.idleTimeout
                 then e == StillActive else e == WentIdle
  {
    hide Run, Perform, Legal, Shape, Received, Holders, Everyone, Admits, BucketLog, IsActivity, HistoryOf;
    var s := Run(cfg, t0, inputs);
    var h, w := ThreadAt(cfg, t0, inputs, i.tid);
    ThreadLocals(cfg, w.ip, w.local, h);
    e := Perform(cfg, s.shared, w, i.now, i.choice).what;
    PerformReturns(cfg, s.shared, w, i.now, i.choice);
    ReturnedLimiter(cfg, t0, inputs, i, e);
  }

  lemma ReturnedLimiter(cfg: Config, t0: real, inputs: seq<Input>, i: Input, e: What)
    requires var s := Run(cfg, t0, inputs);
             s.clock <= i.now && !i.choice.Spawn? && !i.choice.Throw?
             && i.tid in s.workers && !s.workers[i.tid].local.pc.Ended?
             && e == Perform(cfg, s.shared, s.workers[i.tid], i.now, i.choice).what
    ensures var s := Run(cfg, t0, inputs);
            var ip := s.workers[i.tid].ip;
            match s.workers[i.tid].local.pc
            case AtAdmit =>
              e == if |Holders(s.workers, ip)| < cfg.limits.maxPerIp && |Everyone(s.workers)| < cfg.limits.maxTotal
                   then Admitted else CapRefused
            case AtIdleCheck =>
              if exists k | 0 <= k < |s.log| :: IsActivity(s.log[k], ip) && i.now - s.log[k].time <= cfg.limits.idleTimeout
              then e == StillActive else e == WentIdle
            case AtConsume(_) =>
              e == Verdict(Admits(Params(cfg.limits.rps, cfg.limits.burst), BucketLog(s.log, ip), i.now, 1.0), i.now)
            case _ => true
  {
    hide Run, Perform, Holders, Everyone, Admits, BucketLog, IsActivity;
    var s := Run(cfg, t0, inputs);
    var w := s.workers[i.tid];
    var x := Event(i.tid, w.ip, i.now, e);
    assert Next(cfg, s, i).log == s.log + [x];
    assert (s.log + [x])[|s.log|] == x;
    match w.local.pc {
      case AtAdmit => AdmissionIsExact(cfg, t0, inputs, i, i.tid);
      case AtConsume(_) => VerdictIsTheRule(cfg, t0, inputs, i, i.tid);
      case AtIdleCheck =>
        PerformReturns(cfg, s.shared, w, i.now, i.choice);
        IdleBreakIsSound(cfg, t0, inputs, i, x);
      case _ =>
    }
  }

  /** A call that raises ends the serving, except that a failing receive, a
      failing forward and the cleanup have their own ends; then the cleanup is
      all that is left. */
  lemma ThrowingCall(cfg: Config, t0: real, inputs: seq<Input>, i: Input) returns (e: What)
    requires var s := Run(cfg, t0, inputs);
             s.clock <= i.now && i.choice.Throw? && i.tid in s.workers && !Over(HistoryOf(s.log, i.tid))
    ensures var s := Run(cfg, t0, inputs);
            var h := HistoryOf(s.log, i.tid);
            && Next(cfg, s, i).log == s.log + [Event(i.tid, s.workers[i.tid].ip, i.now, e)]
            && if h == [] then e == Raised else
               match h[|h| - 1]
               case StillActive => e == FrameFailed(TimedOut)
               case Verdict(ok, _) => if ok then e.Forwarded? else e == Raised
               case WentIdle => e == Removed
               case FrameFailed(_) => e == Removed
               case Raised => e == Removed
               case _ => e == Raised
  {
    hide Run, Perform, Legal, Shape, HistoryOf;
    var s := Run(cfg, t0, inputs);
    var h, w := ThreadAt(cfg, t0, inputs, i.tid);
    e := Perform(cfg, s.shared, w, i.now, i.choice).what;
    PerformThrows(cfg, s.shared, w, i.now, i.choice);
  }
}
