/**
 Connection accounting of the whole server: the limiter's tables count the
 admitted threads in every reachable state.
 */
module Accounting {
  import opened Limiter
  import opened Framing
  import opened Handler
  import opened Server

  /** The threads of an IP between admission and cleanup. */
  ghost function Holders(ws: map<Tid, Worker>, ip: Ip): set<Tid> {
    set t | t in ws && ws[t].ip == ip && Holding(ws[t].local.pc)
  }

  /** All threads between admission and cleanup. */
  ghost function Everyone(ws: map<Tid, Worker>): set<Tid> {
    set t | t in ws && Holding(ws[t].local.pc)
  }

  ghost predicate Accounted(cfg: Config, s: State) {
    var t := s.shared.tables;
    && Consistent(t)
    && t.total == |Everyone(s.workers)|
    && (forall ip :: ConnectionsOf(t, ip) == |Holders(s.workers, ip)|)
    && (forall ip :: ConnectionsOf(t, ip) <= Max0(cfg.limits.maxPerIp))
    && t.total <= Max0(cfg.limits.maxTotal)
  }

  lemma HoldersUpdate(ws: map<Tid, Worker>, tid: Tid, w: Worker, ip: Ip)
    requires tid in ws ==> ws[tid].ip == w.ip
    ensures |Holders(ws[tid := w], ip)| == |Holders(ws, ip)|
              - (if tid in Holders(ws, ip) then 1 else 0)
              + (if w.ip == ip && Holding(w.local.pc) then 1 else 0)
  {
    hide Holders, Holding;
    HoldersElsewhere(ws, tid, w, ip);
    HolderIs(ws[tid := w], tid, ip);
    SizeWithout(Holders(ws, ip), tid);
    SizeWithout(Holders(ws[tid := w], ip), tid);
  }

  lemma HoldersElsewhere(ws: map<Tid, Worker>, tid: Tid, w: Worker, ip: Ip)
    ensures Holders(ws[tid := w], ip) - {tid} == Holders(ws, ip) - {tid}
  {
    hide Holding;
  }

  lemma EveryoneUpdate(ws: map<Tid, Worker>, tid: Tid, w: Worker)
    ensures |Everyone(ws[tid := w])| == |Everyone(ws)|
              - (if tid in ws && Holding(ws[tid].local.pc) then 1 else 0)
              + (if Holding(w.local.pc) then 1 else 0)
  {
    hide Everyone, Holding;
    EveryoneElsewhere(ws, tid, w);
    SizeWithout(Everyone(ws), tid);
    SizeWithout(Everyone(ws[tid := w]), tid);
  }

  lemma EveryoneElsewhere(ws: map<Tid, Worker>, tid: Tid, w: Worker)
    ensures Everyone(ws[tid := w]) - {tid} == Everyone(ws) - {tid}
    ensures tid in Everyone(ws[tid := w]) <==> Holding(w.local.pc)
    ensures tid in Everyone(ws) <==> tid in ws && Holding(ws[tid].local.pc)
  {
    hide Holding;
  }

  lemma SizeWithout<T>(s: set<T>, x: T)
    ensures |s| == |s - {x}| + if x in s then 1 else 0
  {
    if x in s {
      assert s == s - {x} + {x};
    } else {
      assert s == s - {x};
    }
  }

  /** Only admission and cleanup open and close the holding span. */
  lemma HoldingStep(cfg: Config, ip: Ip, l: Local, e: What)
    requires Enabled(cfg, ip, l, e)
    ensures e == Admitted ==> !Holding(l.pc) && Holding(After(l, e).pc)
    ensures e == Removed ==> Holding(l.pc) && !Holding(After(l, e).pc)
    ensures e != Admitted && e != Removed ==> Holding(After(l, e).pc) == Holding(l.pc)
  {
    hide Genuine;
  }

  /** Only admission and cleanup change the connection counts. */
  lemma PerformTables(cfg: Config, sh: Shared, w: Worker, now: real, ch: Choice)
    requires !w.local.pc.Ended?
    ensures var a := Perform(cfg, sh, w, now, ch);
            var t, t' := sh.tables, a.shared.tables;
            && (a.what == Admitted ==> TryAdd(cfg.limits, t, w.ip, now) == (t', true))
            && (a.what == Removed ==> t' == Remove(t, w.ip))
            && (a.what != Admitted && a.what != Removed ==> t'.connections == t.connections && t'.total == t.total)
  {
    hide Received;
    if w.local.pc.AtRecv? && ch.Stream? {
      ReceivedKind(cfg.crypto, w.local.keys, ch.bytes);
    }
  }

  lemma AdmitCounts(cfg: Config, t: Tables, ip: Ip, now: real)
    requires TryAdd(cfg.limits, t, ip, now).1
    ensures forall x :: ConnectionsOf(TryAdd(cfg.limits, t, ip, now).0, x) == ConnectionsOf(t, x) + if x == ip then 1 else 0
    ensures TryAdd(cfg.limits, t, ip, now).0.total == t.total + 1
  {
  }

  lemma CommitAccounted(cfg: Config, s: State, tid: Tid, now: real, ch: Choice)
    requires Accounted(cfg, s) && tid in s.workers && !s.workers[tid].local.pc.Ended?
    ensures Accounted(cfg, Commit(s, tid, now, Perform(cfg, s.shared, s.workers[tid], now, ch)))
  {
    hide Perform, Enabled, After, Holding, Consistent, TryAdd, Remove, Holders, Everyone, ConnectionsOf;
    var w := s.workers[tid];
    var a := Perform(cfg, s.shared, w, now, ch);
    var s' := Commit(s, tid, now, a);
    var t, t' := s.shared.tables, s'.shared.tables;
    PerformIsEnabled(cfg, s.shared, w, now, ch);
    PerformTables(cfg, s.shared, w, now, ch);
    HoldingStep(cfg, w.ip, w.local, a.what);
    forall ip
      ensures |Holders(s'.workers, ip)| == |Holders(s.workers, ip)|
                + (if ip == w.ip && a.what == Admitted then 1 else 0)
                - (if ip == w.ip && a.what == Removed then 1 else 0)
    {
      HoldersUpdate(s.workers, tid, s'.workers[tid], ip);
      HolderIs(s.workers, tid, ip);
    }
    EveryoneUpdate(s.workers, tid, s'.workers[tid]);
    if a.what == Admitted {
      TryAddKeepsConsistent(cfg.limits, t, w.ip, now);
      AdmitCounts(cfg, t, w.ip, now);
    } else if a.what == Removed {
      RemoveKeepsConsistent(t, w.ip);
      HolderIs(s.workers, tid, w.ip);
      CountedEntry(t, w.ip);
    } else {
      SameCounts(t, t');
    }
  }

  lemma HolderIs(ws: map<Tid, Worker>, tid: Tid, ip: Ip)
    requires tid in ws
    ensures tid in Holders(ws, ip) <==> ws[tid].ip == ip && Holding(ws[tid].local.pc)
    ensures tid in Holders(ws, ip) ==> 0 < |Holders(ws, ip)|
  {
  }

  lemma CountedEntry(t: Tables, ip: Ip)
    requires Consistent(t)
    ensures 0 <= ConnectionsOf(t, ip)
    ensures 0 < ConnectionsOf(t, ip) <==> ip in t.connections
    ensures 0 < ConnectionsOf(t, ip) ==> 0 < t.total
    ensures Max0(ConnectionsOf(t, ip) - 1) == if 0 < ConnectionsOf(t, ip) then ConnectionsOf(t, ip) - 1 else 0
  {
    SumNonNegative(t.connections);
  }

  lemma SameCounts(t: Tables, t': Tables)
    requires t'.connections == t.connections && t'.total == t.total
    ensures Consistent(t') == Consistent(t)
    ensures forall ip :: ConnectionsOf(t', ip) == ConnectionsOf(t, ip)
  {
  }

  lemma SpawnAccounted(cfg: Config, s: State, tid: Tid, now: real, ip: Ip)
    requires Accounted(cfg, s) && tid !in s.workers
    ensures Accounted(cfg, SpawnThread(s, tid, now, ip))
  {
    hide Consistent;
    EveryoneUpdate(s.workers, tid, Worker(ip, START, 0));
    forall x
      ensures |Holders(SpawnThread(s, tid, now, ip).workers, x)| == |Holders(s.workers, x)|
    {
      HoldersUpdate(s.workers, tid, Worker(ip, START, 0), x);
    }
  }

  lemma InitAccounted(cfg: Config, t0: real)
    ensures Accounted(cfg, Init(t0))
  {
    forall ip
      ensures |Holders(Init(t0).workers, ip)| == 0
    {
      assert Holders(Init(t0).workers, ip) == {};
    }
    assert Everyone(Init(t0).workers) == {};
  }

  /** In every reachable state, over all interleavings: each IP's entry counts
      its threads between admission and cleanup, an entry exists only while
      that count is positive, the total is the sum of the map, and neither cap
      is exceeded. */
  lemma {:induction false} RunAccounted(cfg: Config, t0: real, inputs: seq<Input>)
    ensures Accounted(cfg, Run(cfg, t0, inputs))
  {
    hide Accounted, Perform, Commit, SpawnThread;
    if inputs == [] {
      InitAccounted(cfg, t0);
    } else {
      var s, i := Run(cfg, t0, inputs[..|inputs| - 1]), inputs[|inputs| - 1];
      RunAccounted(cfg, t0, inputs[..|inputs| - 1]);
      if i.choice.Spawn? && i.tid !in s.workers {
        SpawnAccounted(cfg, s, i.tid, i.now, i.choice.ip);
      } else if i.tid in s.workers && !s.workers[i.tid].local.pc.Ended? {
        CommitAccounted(cfg, s, i.tid, i.now, i.choice);
      }
    }
  }

  /** Admission is exact: a thread whose try_add_connection returns is admitted
      if and only if fewer threads than the cap hold a connection from its IP,
      and fewer than the global cap hold one at all. */
  lemma AdmissionIsExact(cfg: Config, t0: real, inputs: seq<Input>, i: Input, tid: Tid)
    requires var s := Run(cfg, t0, inputs);
             s.clock <= i.now && i.tid == tid && !i.choice.Throw? && !i.choice.Spawn? && tid in s.workers && s.workers[tid].local.pc.AtAdmit?
    ensures var s := Run(cfg, t0, inputs);
            var ip := s.workers[tid].ip;
            Next(cfg, s, i).log == s.log + [Event(tid, ip, i.now,
              if |Holders(s.workers, ip)| < cfg.limits.maxPerIp && |Everyone(s.workers)| < cfg.limits.maxTotal
              then Admitted else CapRefused)]
  {
    hide Run, Holders, Everyone, Consistent;
    RunAccounted(cfg, t0, inputs);
    var s := Run(cfg, t0, inputs);
    assert ConnectionsOf(s.shared.tables, s.workers[tid].ip) == |Holders(s.workers, s.workers[tid].ip)|;
  }

  /** The clamp at zero in remove_connection never changes a value: a thread
      that cleans up finds itself counted. */
  lemma CleanupIsCounted(cfg: Config, t0: real, inputs: seq<Input>, tid: Tid)
    requires var s := Run(cfg, t0, inputs); tid in s.workers && s.workers[tid].local.pc.AtRemove?
    ensures var s := Run(cfg, t0, inputs);
            var t := s.shared.tables;
            var ip := s.workers[tid].ip;
            && ip in t.connections && 1 <= t.connections[ip] && 1 <= t.total
            && Remove(t, ip).total == t.total - 1
            && Consistent(Remove(t, ip))
  {
    var s := Run(cfg, t0, inputs);
    var ip := s.workers[tid].ip;
    RunAccounted(cfg, t0, inputs);
    HolderIs(s.workers, tid, ip);
    CountedEntry(s.shared.tables, ip);
    RemoveKeepsConsistent(s.shared.tables, ip);
  }

  /** When all threads have ended the map is empty and the total is 0. */
  lemma AllEndedLeavesNothing(cfg: Config, t0: real, inputs: seq<Input>)
    requires var s := Run(cfg, t0, inputs); forall tid | tid in s.workers :: s.workers[tid].local.pc.Ended?
    ensures var t := Run(cfg, t0, inputs).shared.tables; t.connections == map[] && t.total == 0
  {
    var s := Run(cfg, t0, inputs);
    RunAccounted(cfg, t0, inputs);
    forall ip
      ensures ip !in s.shared.tables.connections
    {
      assert Holders(s.workers, ip) == {};
      CountedEntry(s.shared.tables, ip);
    }
    assert s.shared.tables.connections == map[];
  }

  /** The events of a thread admit it at most once and undo that exactly once. */
  lemma ThreadsBalance(cfg: Config, t0: real, inputs: seq<Input>, tid: Tid)
    requires tid in Run(cfg, t0, inputs).workers
    ensures var s := Run(cfg, t0, inputs);
            var h := HistoryOf(s.log, tid);
            Balanced(s.workers[tid].local.pc, Times(h, Admitted), Times(h, Removed))
  {
    var s := Run(cfg, t0, inputs);
    RunThreaded(cfg, t0, inputs);
    UndoneExactlyOnce(cfg, s.workers[tid].ip, HistoryOf(s.log, tid));
  }
}
