/**
 The request rate of one IP over the whole server: over every interleaving of
 threads, disconnects and reconnects, its bucket is never rebuilt, so the
 sliding-window bound of one bucket bounds what reaches forward_request.
 */
module RateBound {
  import opened Bucket
  import opened Limiter
  import opened Framing
  import opened Handler
  import opened Server
  import Accounting

  /** The bucket log of an IP, read off the server's events. */
  function EntryOf(e: What, time: real): seq<Entry> {
    match e
    case Looked(built) => if built then [Entry(time, 0.0)] else []
    case Verdict(ok, at) => [Entry(at, if ok then 1.0 else 0.0)]
    case _ => []
  }

  function BucketLog(log: seq<Event>, ip: Ip): seq<Entry> {
    if log == [] then [] else
    var e := log[|log| - 1];
    BucketLog(log[..|log| - 1], ip) + if e.ip == ip then EntryOf(e.what, e.time) else []
  }

  lemma BucketLogAppend(log: seq<Event>, e: Event, ip: Ip)
    ensures BucketLog(log + [e], ip) == BucketLog(log, ip) + if e.ip == ip then EntryOf(e.what, e.time) else []
  {
    assert (log + [e])[..|log|] == log;
  }

  /** The log of one bucket keeps the rule and does not lie in the future. */
  ghost predicate Sane(p: Params, log: seq<Entry>, clock: real) {
    && Lawful(p, log)
    && Ordered(log)
    && forall i | 0 <= i < |log| :: log[i].time <= clock
  }

  /** An IP's bucket, once built, tracks everything ever granted to the IP. */
  ghost predicate Tracked(p: Params, sh: Shared, log: seq<Entry>, ip: Ip) {
    if ip in sh.buckets then
      sh.buckets[ip] < |sh.heap| && Tracks(p, sh.heap[sh.buckets[ip]], log)
    else
      log == []
  }

  ghost predicate Separate(heap: seq<Level>, buckets: map<Ip, nat>) {
    && (forall ip | ip in buckets :: buckets[ip] < |heap|)
    && (forall ip, other | ip in buckets && other in buckets && ip != other :: buckets[ip] != buckets[other])
  }

  ghost predicate Rated(cfg: Config, s: State) {
    var p := cfg.limits.BucketParams();
    && Separate(s.shared.heap, s.shared.buckets)
    && (forall ip :: Sane(p, BucketLog(s.log, ip), s.clock))
    && (forall ip :: Tracked(p, s.shared, BucketLog(s.log, ip), ip))
    && (forall t | t in s.workers :: HoldsItsBucket(s.shared, s.workers[t]))
  }

  /** Between the two halves of check_rate the reference stays the IP's bucket. */
  ghost predicate HoldsItsBucket(sh: Shared, w: Worker) {
    w.local.pc.AtConsume? ==> w.ip in sh.buckets && w.bucket == sh.buckets[w.ip]
  }

  lemma SaneAppend(p: Params, log: seq<Entry>, clock: real, now: real, n: real, ok: bool)
    requires Sane(p, log, clock) && clock <= now && 0.0 <= n
    requires ok ==> Admits(p, log, now, n)
    ensures Sane(p, Extend(log, now, n, ok), now)
  {
    hide Admits;
    var log' := Extend(log, now, n, ok);
    forall k | 0 <= k < |log'| && 0.0 < log'[k].amount
      ensures Admits(p, log'[..k], log'[k].time, log'[k].amount)
    {
      if k < |log| {
        assert log'[..k] == log[..k];
      } else {
        assert log'[..k] == log;
      }
    }
  }

  lemma SaneLater(p: Params, log: seq<Entry>, clock: real, now: real)
    requires Sane(p, log, clock) && clock <= now
    ensures Sane(p, log, now)
  {
    hide Lawful, Ordered;
  }

  /** What an action does to the buckets. */
  ghost predicate BucketEffect(cfg: Config, sh: Shared, w: Worker, now: real, a: Act) {
    var p := cfg.limits.BucketParams();
    match a.what
    case Looked(built) =>
      if built then
        && w.ip !in sh.buckets && a.bucket == |sh.heap|
        && a.shared.heap == sh.heap + [Fresh(p, now)] && a.shared.buckets == sh.buckets[w.ip := |sh.heap|]
      else
        w.ip in sh.buckets && a.bucket == sh.buckets[w.ip] && a.shared == sh
    case Verdict(ok, at) =>
      && at == now && w.local.pc.AtConsume? && w.bucket < |sh.heap|
      && (var (level, granted) := Take(p, sh.heap[w.bucket], now, 1.0);
          ok == granted && a.shared.heap == sh.heap[w.bucket := level] && a.shared.buckets == sh.buckets)
    case _ => a.shared.heap == sh.heap && a.shared.buckets == sh.buckets
  }

  lemma PerformBuckets(cfg: Config, sh: Shared, w: Worker, now: real, ch: Choice)
    requires !w.local.pc.Ended?
    ensures BucketEffect(cfg, sh, w, now, Perform(cfg, sh, w, now, ch))
  {
    hide Received, Take, TryAdd, Remove;
    if w.local.pc.AtRecv? && ch.Stream? {
      ReceivedKind(cfg.crypto, w.local.keys, ch.bytes);
    }
  }

  /** The log of the acting thread's IP after the action. */
  lemma OwnLog(cfg: Config, sh: Shared, w: Worker, clock: real, now: real, a: Act, log: seq<Entry>)
    requires BucketEffect(cfg, sh, w, now, a) && HoldsItsBucket(sh, w)
    requires Tracked(cfg.limits.BucketParams(), sh, log, w.ip)
    requires Sane(cfg.limits.BucketParams(), log, clock) && clock <= now
    ensures var log' := log + EntryOf(a.what, now);
            && Tracked(cfg.limits.BucketParams(), a.shared, log', w.ip)
            && Sane(cfg.limits.BucketParams(), log', now)
  {
    hide Tracks, Sane, Take, Admits;
    var p := cfg.limits.BucketParams();
    SaneLater(p, log, clock, now);
    match a.what {
      case Looked(built) =>
        if built {
          FreshTracks(p, now);
          assert log + EntryOf(a.what, now) == [Entry(now, 0.0)] == Extend(log, now, 0.0, false);
          SaneAppend(p, log, clock, now, 0.0, false);
        } else {
          assert log + EntryOf(a.what, now) == log;
        }
      case Verdict(ok, _) =>
        TakeRefinesLog(p, sh.heap[w.bucket], log, now, 1.0);
        SaneAppend(p, log, clock, now, 1.0, ok);
        assert log + EntryOf(a.what, now) == Extend(log, now, 1.0, ok);
      case _ =>
        assert log + EntryOf(a.what, now) == log;
    }
  }

  /** No other IP's bucket changes. */
  lemma OtherLog(cfg: Config, sh: Shared, w: Worker, now: real, a: Act, log: seq<Entry>, ip: Ip)
    requires BucketEffect(cfg, sh, w, now, a) && HoldsItsBucket(sh, w) && Separate(sh.heap, sh.buckets)
    requires ip != w.ip && Tracked(cfg.limits.BucketParams(), sh, log, ip)
    ensures Tracked(cfg.limits.BucketParams(), a.shared, log, ip)
  {
    hide Tracks, Take;
  }

  lemma StaySeparate(cfg: Config, sh: Shared, w: Worker, now: real, a: Act)
    requires BucketEffect(cfg, sh, w, now, a) && Separate(sh.heap, sh.buckets)
    ensures Separate(a.shared.heap, a.shared.buckets)
    ensures forall ip | ip in sh.buckets :: ip in a.shared.buckets && a.shared.buckets[ip] == sh.buckets[ip]
    ensures a.what.Looked? ==> w.ip in a.shared.buckets && a.bucket == a.shared.buckets[w.ip]
  {
    hide Take;
  }

  lemma ConsumeAfterLookup(cfg: Config, ip: Ip, l: Local, e: What)
    requires Enabled(cfg, ip, l, e) && After(l, e).pc.AtConsume?
    ensures e.Looked?
  {
    hide Genuine;
  }

  lemma CommitRated(cfg: Config, s: State, tid: Tid, now: real, a: Act)
    requires Rated(cfg, s) && tid in s.workers && s.clock <= now
    requires Enabled(cfg, s.workers[tid].ip, s.workers[tid].local, a.what)
    requires BucketEffect(cfg, s.shared, s.workers[tid], now, a)
    ensures Rated(cfg, Commit(s, tid, now, a))
  {
    hide Enabled, After, BucketEffect, Tracked, Sane, Separate;
    var p := cfg.limits.BucketParams();
    var w, s' := s.workers[tid], Commit(s, tid, now, a);
    StaySeparate(cfg, s.shared, w, now, a);
    forall ip
      ensures Sane(p, BucketLog(s'.log, ip), now) && Tracked(p, s'.shared, BucketLog(s'.log, ip), ip)
    {
      var log := BucketLog(s.log, ip);
      BucketLogAppend(s.log, Event(tid, w.ip, now, a.what), ip);
      if ip == w.ip {
        OwnLog(cfg, s.shared, w, s.clock, now, a, log);
      } else {
        assert log + [] == log;
        OtherLog(cfg, s.shared, w, now, a, log, ip);
        SaneLater(p, log, s.clock, now);
      }
    }
    if After(w.local, a.what).pc.AtConsume? {
      ConsumeAfterLookup(cfg, w.ip, w.local, a.what);
    }
  }

  lemma SpawnRated(cfg: Config, s: State, tid: Tid, now: real, ip: Ip)
    requires Rated(cfg, s) && tid !in s.workers && s.clock <= now
    ensures Rated(cfg, SpawnThread(s, tid, now, ip))
  {
    hide Sane, Tracked, Separate;
    forall x
      ensures Sane(cfg.limits.BucketParams(), BucketLog(s.log, x), now)
    {
      SaneLater(cfg.limits.BucketParams(), BucketLog(s.log, x), s.clock, now);
    }
  }

  lemma {:induction false} RunRated(cfg: Config, t0: real, inputs: seq<Input>)
    ensures Rated(cfg, Run(cfg, t0, inputs))
  {
    hide Rated, Perform, Commit, SpawnThread, BucketEffect, Enabled;
    if inputs == [] {
      InitRated(cfg, t0);
    } else {
      var s, i := Run(cfg, t0, inputs[..|inputs| - 1]), inputs[|inputs| - 1];
      RunRated(cfg, t0, inputs[..|inputs| - 1]);
      if s.clock <= i.now {
        if i.choice.Spawn? && i.tid !in s.workers {
          SpawnRated(cfg, s, i.tid, i.now, i.choice.ip);
        } else if i.tid in s.workers && !s.workers[i.tid].local.pc.Ended? {
          var w := s.workers[i.tid];
          PerformIsEnabled(cfg, s.shared, w, i.now, i.choice);
          PerformBuckets(cfg, s.shared, w, i.now, i.choice);
          CommitRated(cfg, s, i.tid, i.now, Perform(cfg, s.shared, w, i.now, i.choice));
        }
      }
    }
  }

  lemma InitRated(cfg: Config, t0: real)
    ensures Rated(cfg, Init(t0))
  {
  }

  // ---------------------------------------------------------------------
  // Grants, pending forwards and forwards
  // ---------------------------------------------------------------------

  predicate Within(t: real, a: real, b: real) {
    a <= t <= b
  }

  function GrantsIn(log: seq<Event>, ip: Ip, a: real, b: real): nat {
    if log == [] then 0 else
    var e := log[|log| - 1];
    GrantsIn(log[..|log| - 1], ip, a, b)
      + if e.ip == ip && e.what.Verdict? && e.what.ok && Within(e.what.at, a, b) then 1 else 0
  }

  /** Calls of forward_request for an IP, counted by the time of their grant. */
  function ForwardsIn(log: seq<Event>, ip: Ip, a: real, b: real): nat {
    if log == [] then 0 else
    var e := log[|log| - 1];
    ForwardsIn(log[..|log| - 1], ip, a, b)
      + if e.ip == ip && e.what.Forwarded? && Within(e.what.granted, a, b) then 1 else 0
  }

  predicate Waits(w: Worker, ip: Ip, a: real, b: real) {
    w.ip == ip && w.local.pc.AtForward? && Within(w.local.pc.granted, a, b)
  }

  /** Threads that were granted a request in [a, b] and are about to forward it. */
  ghost function Waiting(ws: map<Tid, Worker>, ip: Ip, a: real, b: real): set<Tid> {
    set t | t in ws && Waits(ws[t], ip, a, b)
  }

  /** Nothing is granted without being forwarded, or forwarded without a grant
      of its own. */
  ghost predicate Conserved(s: State) {
    forall ip, a, b :: ForwardsIn(s.log, ip, a, b) + |Waiting(s.workers, ip, a, b)| == GrantsIn(s.log, ip, a, b)
  }

  lemma WaitingElsewhere(ws: map<Tid, Worker>, tid: Tid, w: Worker, ip: Ip, a: real, b: real)
    ensures Waiting(ws[tid := w], ip, a, b) - {tid} == Waiting(ws, ip, a, b) - {tid}
    ensures tid in Waiting(ws[tid := w], ip, a, b) <==> Waits(w, ip, a, b)
    ensures tid in Waiting(ws, ip, a, b) <==> tid in ws && Waits(ws[tid], ip, a, b)
  {
    hide Waits;
  }

  lemma WaitsStep(cfg: Config, w: Worker, e: What, ip: Ip, a: real, b: real, bucket: nat)
    requires Enabled(cfg, w.ip, w.local, e)
    ensures Waits(Worker(w.ip, After(w.local, e), bucket), ip, a, b)
       <==> w.ip == ip && e.Verdict? && e.ok && Within(e.at, a, b)
    ensures Waits(w, ip, a, b) <==> w.ip == ip && e.Forwarded? && Within(e.granted, a, b)
  {
    hide Genuine;
  }

  lemma CommitConserved(cfg: Config, s: State, tid: Tid, now: real, a: Act)
    requires Conserved(s) && tid in s.workers
    requires Enabled(cfg, s.workers[tid].ip, s.workers[tid].local, a.what)
    ensures Conserved(Commit(s, tid, now, a))
  {
    hide Enabled, After, Waits, Waiting, Within;
    var w, s' := s.workers[tid], Commit(s, tid, now, a);
    forall ip, x, y
      ensures ForwardsIn(s'.log, ip, x, y) + |Waiting(s'.workers, ip, x, y)| == GrantsIn(s'.log, ip, x, y)
    {
      assert s'.log[..|s.log|] == s.log;
      WaitsStep(cfg, w, a.what, ip, x, y, a.bucket);
      WaitingElsewhere(s.workers, tid, s'.workers[tid], ip, x, y);
      Accounting.SizeWithout(Waiting(s.workers, ip, x, y), tid);
      Accounting.SizeWithout(Waiting(s'.workers, ip, x, y), tid);
    }
  }

  lemma SpawnConserved(s: State, tid: Tid, now: real, ip: Ip)
    requires Conserved(s) && tid !in s.workers
    ensures Conserved(SpawnThread(s, tid, now, ip))
  {
    forall x, a, b
      ensures Waiting(SpawnThread(s, tid, now, ip).workers, x, a, b) == Waiting(s.workers, x, a, b)
    {
      WaitingElsewhere(s.workers, tid, Worker(ip, START, 0), x, a, b);
    }
  }

  lemma InitConserved(t0: real)
    ensures Conserved(Init(t0))
  {
    forall ip, a, b
      ensures Waiting(Init(t0).workers, ip, a, b) == {}
    {
    }
  }

  lemma {:induction false} RunConserved(cfg: Config, t0: real, inputs: seq<Input>)
    ensures Conserved(Run(cfg, t0, inputs))
  {
    hide Conserved, Perform, Commit, SpawnThread, Enabled;
    if inputs == [] {
      InitConserved(t0);
    } else {
      var s, i := Run(cfg, t0, inputs[..|inputs| - 1]), inputs[|inputs| - 1];
      RunConserved(cfg, t0, inputs[..|inputs| - 1]);
      if i.choice.Spawn? && i.tid !in s.workers {
        SpawnConserved(s, i.tid, i.now, i.choice.ip);
      } else if i.tid in s.workers && !s.workers[i.tid].local.pc.Ended? {
        PerformIsEnabled(cfg, s.shared, s.workers[i.tid], i.now, i.choice);
        CommitConserved(cfg, s, i.tid, i.now, Perform(cfg, s.shared, s.workers[i.tid], i.now, i.choice));
      }
    }
  }

  // ---------------------------------------------------------------------
  // The bound
  // ---------------------------------------------------------------------

  lemma GrantedInAppend(log: seq<Entry>, e: Entry, a: real, b: real)
    ensures GrantedIn(log + [e], a, b) == GrantedIn(log, a, b) + if a <= e.time <= b then e.amount else 0.0
  {
    assert (log + [e])[..|log|] == log;
  }

  /** The grants of the server's log are those of the IP's bucket log. */
  lemma {:induction false} GrantsAreLogged(log: seq<Event>, ip: Ip, a: real, b: real)
    ensures GrantsIn(log, ip, a, b) as real == GrantedIn(BucketLog(log, ip), a, b)
  {
    if log != [] {
      var front, e := log[..|log| - 1], log[|log| - 1];
      GrantsAreLogged(front, ip, a, b);
      GrantsStep(GrantsIn(front, ip, a, b), BucketLog(front, ip), e, ip, a, b);
    }
  }

  lemma GrantsStep(n: nat, before: seq<Entry>, e: Event, ip: Ip, a: real, b: real)
    requires n as real == GrantedIn(before, a, b)
    ensures (n + if e.ip == ip && e.what.Verdict? && e.what.ok && Within(e.what.at, a, b) then 1 else 0) as real
         == GrantedIn(before + if e.ip == ip then EntryOf(e.what, e.time) else [], a, b)
  {
    hide GrantedIn;
    if e.ip == ip && EntryOf(e.what, e.time) != [] {
      GrantedInAppend(before, EntryOf(e.what, e.time)[0], a, b);
      assert EntryOf(e.what, e.time) == [EntryOf(e.what, e.time)[0]];
    } else {
      assert before + [] == before;
    }
  }

  /** Whole-server rate bound: in any window of real time the requests of one
      IP that were granted and went on to forward_request number at most
      burst + rps * length, whatever connections the IP opened and closed. */
  lemma ServerRateBound(cfg: Config, t0: real, inputs: seq<Input>, ip: Ip, a: real, b: real)
    requires 0.0 <= cfg.limits.rps && a <= b
    ensures var n := ForwardsIn(Run(cfg, t0, inputs).log, ip, a, b);
            0 < n || 0.0 <= cfg.limits.burst ==> n as real <= cfg.limits.burst + cfg.limits.rps * (b - a)
  {
    hide Rated, Conserved, Run;
    var s := Run(cfg, t0, inputs);
    RunRated(cfg, t0, inputs);
    RunConserved(cfg, t0, inputs);
    ForwardsAreGranted(s, ip, a, b);
    GrantBound(cfg, s, ip, a, b);
    AtLeastBurst(cfg.limits, a, b);
    FewerFit(ForwardsIn(s.log, ip, a, b), GrantsIn(s.log, ip, a, b), cfg.limits.burst, cfg.limits.burst + cfg.limits.rps * (b - a));
  }

  lemma FewerFit(n: nat, grants: nat, burst: real, limit: real)
    requires n <= grants && burst <= limit && (0 < grants ==> grants as real <= limit)
    ensures 0 < n || 0.0 <= burst ==> n as real <= limit
  {
  }

  lemma AtLeastBurst(l: Limits, a: real, b: real)
    requires 0.0 <= l.rps && a <= b
    ensures l.burst <= l.burst + l.rps * (b - a)
  {
    var length := b - a;
    assert 0.0 <= l.rps * length;
  }

  lemma ForwardsAreGranted(s: State, ip: Ip, a: real, b: real)
    requires Conserved(s)
    ensures ForwardsIn(s.log, ip, a, b) <= GrantsIn(s.log, ip, a, b)
  {
    assert ForwardsIn(s.log, ip, a, b) + |Waiting(s.workers, ip, a, b)| == GrantsIn(s.log, ip, a, b);
  }

  lemma GrantBound(cfg: Config, s: State, ip: Ip, a: real, b: real)
    requires Rated(cfg, s) && 0.0 <= cfg.limits.rps && a <= b
    ensures var n := GrantsIn(s.log, ip, a, b);
            0 < n ==> n as real <= cfg.limits.burst + cfg.limits.rps * (b - a)
  {
    hide Tracked, Separate, GrantedIn, GrantsIn;
    var p := cfg.limits.BucketParams();
    var log := BucketLog(s.log, ip);
    GrantsAreLogged(s.log, ip, a, b);
    assert Sane(p, log, s.clock);
    WindowBound(p, log, a, b);
  }

  /** Nor is anyone refused without reason: in every run a rate check is passed
      exactly when the request fits, together with all that the IP was granted
      since its first rate check, into a burst plus the rate times the time. */
  lemma VerdictIsTheRule(cfg: Config, t0: real, inputs: seq<Input>, i: Input, tid: Tid)
    requires var s := Run(cfg, t0, inputs);
             s.clock <= i.now && i.tid == tid && tid in s.workers && s.workers[tid].local.pc.AtConsume? && !i.choice.Throw? && !i.choice.Spawn?
    ensures var s := Run(cfg, t0, inputs);
            var log := BucketLog(s.log, s.workers[tid].ip);
            Next(cfg, s, i).log == s.log + [Event(tid, s.workers[tid].ip, i.now,
                 Verdict(Admits(Params(cfg.limits.rps, cfg.limits.burst), log, i.now, 1.0), i.now))]
  {
    hide Run, Take, Admits, Tracks, Sane;
    RunRated(cfg, t0, inputs);
    var s := Run(cfg, t0, inputs);
    var w := s.workers[tid];
    assert HoldsItsBucket(s.shared, w);
    var log := BucketLog(s.log, w.ip);
    assert Tracked(cfg.limits.BucketParams(), s.shared, log, w.ip);
    TakeRefinesLog(cfg.limits.BucketParams(), s.shared.heap[w.bucket], log, i.now, 1.0);
  }

  /** A reconnect never refills: the bucket of an IP, once built, stays its bucket. */
  lemma BucketsOutliveConnections(cfg: Config, s: State, i: Input, ip: Ip)
    requires Rated(cfg, s) && ip in s.shared.buckets
    ensures var s' := Next(cfg, s, i);
            && ip in s'.shared.buckets && s'.shared.buckets[ip] == s.shared.buckets[ip]
            && BucketLog(s.log, ip) <= BucketLog(s'.log, ip)
  {
    hide Perform, BucketEffect, Rated;
    if i.tid in s.workers && !s.workers[i.tid].local.pc.Ended? && !i.choice.Spawn? && s.clock <= i.now {
      var w := s.workers[i.tid];
      var a := Perform(cfg, s.shared, w, i.now, i.choice);
      PerformBuckets(cfg, s.shared, w, i.now, i.choice);
      RatedIsSeparate(cfg, s);
      StaySeparate(cfg, s.shared, w, i.now, a);
      BucketLogAppend(s.log, Event(i.tid, w.ip, i.now, a.what), ip);
    }
  }

  lemma RatedIsSeparate(cfg: Config, s: State)
    requires Rated(cfg, s)
    ensures Separate(s.shared.heap, s.shared.buckets)
  {
  }
}
