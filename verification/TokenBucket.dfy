/**
 The token bucket of server/rate_limit.py: one running counter that stands in
 for a sliding-window rule over the whole history of grants.

 Times, rates and token counts are reals. The clock reading that `consume`
 takes inside its lock is a parameter.
 */
module Bucket {

  /** `rate` tokens per second, at most `capacity` tokens saved up. */
  datatype Params = Params(rate: real, capacity: real)

  /** The two mutable fields of the counter. */
  datatype Level = Level(tokens: real, last: real)

  /** One line of the full history: what was granted, and when.
      Line 0 is the construction of the bucket, with amount 0. */
  datatype Entry = Entry(time: real, amount: real)

  /** A call of `consume`. */
  datatype Request = Request(time: real, tokens: real)

  // ---------------------------------------------------------------------
  // The fast form: O(1) counter
  // ---------------------------------------------------------------------

  function Min(x: real, y: real): real {
    if x <= y then x else y
  }

  function Refill(p: Params, b: Level, now: real): real {
    Min(p.capacity, b.tokens + (now - b.last) * p.rate)
  }

  function Take(p: Params, b: Level, now: real, n: real): (Level, bool) {
    var available := Refill(p, b, now);
    if available >= n then (Level(available - n, now), true) else (Level(available, now), false)
  }

  function Fresh(p: Params, now: real): Level {
    Level(p.capacity, now)
  }

  // ---------------------------------------------------------------------
  // The simple form: a rule over the whole log
  // ---------------------------------------------------------------------

  /** Tokens granted by lines j, j+1, ... of the log. */
  function GrantedSince(log: seq<Entry>, j: nat): real
    requires j <= |log|
    decreases |log| - j
  {
    if j == |log| then 0.0 else log[j].amount + GrantedSince(log, j + 1)
  }

  /** The sliding-window bound on what is granted between two times. */
  function Bound(p: Params, from: real, to: real): real {
    p.capacity + p.rate * (to - from)
  }

  /** What the sliding window that opens at line j still allows at time `now`. */
  function Slack(p: Params, log: seq<Entry>, j: nat, now: real): real
    requires j < |log|
  {
    Bound(p, log[j].time, now) - GrantedSince(log, j)
  }

  /** The sliding-window rule: `n` more tokens at time `now` fit into every
      window that opens at an earlier line, and into the empty window. */
  ghost predicate Admits(p: Params, log: seq<Entry>, now: real, n: real) {
    && n <= p.capacity
    && forall j | 0 <= j < |log| :: n <= Slack(p, log, j, now)
  }

  /** The rule written out: in no window are more than `capacity + rate * length`
      tokens granted. */
  lemma AdmitsMeans(p: Params, log: seq<Entry>, now: real, n: real)
    ensures Admits(p, log, now, n) <==>
            (n <= p.capacity
             && forall j | 0 <= j < |log| :: GrantedSince(log, j) + n <= p.capacity + p.rate * (now - log[j].time))
  {
    hide Slack, Bound;
    forall j | 0 <= j < |log|
      ensures n <= Slack(p, log, j, now) <==> GrantedSince(log, j) + n <= p.capacity + p.rate * (now - log[j].time)
    {
      SlackMeans(p, log, j, now);
    }
  }

  lemma SlackMeans(p: Params, log: seq<Entry>, j: nat, now: real)
    requires j < |log|
    ensures Slack(p, log, j, now) == p.capacity + p.rate * (now - log[j].time) - GrantedSince(log, j)
  {
  }

  /** The counter is the tightest slack over all windows of the log. */
  ghost predicate Tracks(p: Params, b: Level, log: seq<Entry>) {
    && log != []
    && b.last == log[|log| - 1].time
    && (forall j | 0 <= j < |log| :: b.tokens <= Slack(p, log, j, b.last))
    && (exists j | 0 <= j < |log| :: b.tokens == Slack(p, log, j, b.last))
  }

  function Extend(log: seq<Entry>, now: real, n: real, ok: bool): seq<Entry> {
    log + [Entry(now, if ok then n else 0.0)]
  }

  lemma {:induction false} GrantedSinceAppend(log: seq<Entry>, e: Entry, j: nat)
    requires j <= |log|
    ensures GrantedSince(log + [e], j) == GrantedSince(log, j) + e.amount
    decreases |log| - j
  {
    if j == |log| {
      assert GrantedSince(log + [e], j + 1) == 0.0;
    } else {
      GrantedSinceAppend(log, e, j + 1);
    }
  }

  lemma SlackLater(p: Params, log: seq<Entry>, j: nat, t: real, now: real)
    requires j < |log|
    ensures Slack(p, log, j, now) == Slack(p, log, j, t) + (now - t) * p.rate
  {
  }

  /** What a new line does to the slack of every window. */
  lemma SlackAfter(p: Params, log: seq<Entry>, last: real, e: Entry)
    ensures var log' := log + [e];
            && (forall j | 0 <= j < |log| :: Slack(p, log', j, e.time) == Slack(p, log, j, last) + (e.time - last) * p.rate - e.amount)
            && Slack(p, log', |log|, e.time) == p.capacity - e.amount
  {
    forall j | 0 <= j < |log|
      ensures Slack(p, log + [e], j, e.time) == Slack(p, log, j, last) + (e.time - last) * p.rate - e.amount
    {
      SlackLater(p, log, j, last, e.time);
      GrantedSinceAppend(log, e, j);
    }
    assert GrantedSince(log + [e], |log| + 1) == 0.0;
  }

  lemma AdmitsAtLast(p: Params, log: seq<Entry>, last: real, now: real, n: real)
    ensures Admits(p, log, now, n) <==>
            (n <= p.capacity && forall j | 0 <= j < |log| :: n <= Slack(p, log, j, last) + (now - last) * p.rate)
  {
    forall j | 0 <= j < |log|
      ensures Slack(p, log, j, now) == Slack(p, log, j, last) + (now - last) * p.rate
    {
      SlackLater(p, log, j, last, now);
    }
  }

  /** Fast form equals simple form, for one call: the counter grants exactly
      when the rule over the full log does, and goes on tracking the log. */
  lemma TakeRefinesLog(p: Params, b: Level, log: seq<Entry>, now: real, n: real)
    requires Tracks(p, b, log)
    ensures var (b', ok) := Take(p, b, now, n);
            && (ok <==> Admits(p, log, now, n))
            && Tracks(p, b', Extend(log, now, n, ok))
  {
    hide Slack, Admits;
    var (b', ok) := Take(p, b, now, n);
    var e := Entry(now, if ok then n else 0.0);
    AdmitsAtLast(p, log, b.last, now, n);
    SlackAfter(p, log, b.last, e);
    var k :| 0 <= k < |log| && b.tokens == Slack(p, log, k, b.last);
    if Refill(p, b, now) == p.capacity {
      assert b'.tokens == Slack(p, log + [e], |log|, now);
    } else {
      assert b'.tokens == Slack(p, log + [e], k, now);
    }
  }

  lemma FreshTracks(p: Params, now: real)
    ensures Tracks(p, Fresh(p, now), [Entry(now, 0.0)])
  {
    var log := [Entry(now, 0.0)];
    assert GrantedSince(log, 1) == 0.0;
    assert Slack(p, log, 0, now) == p.capacity;
  }

  /** The windows of earlier lines alone do not decide a grant: a full bucket
      refuses a request above its capacity however long it has been idle. */
  lemma EmptyWindowMatters()
    ensures var p := Params(1.0, 2.0);
            var log := [Entry(0.0, 0.0)];
            && Tracks(p, Fresh(p, 0.0), log)
            && (forall j | 0 <= j < |log| :: 3.0 <= Slack(p, log, j, 10.0))
            && !Take(p, Fresh(p, 0.0), 10.0, 3.0).1
  {
    FreshTracks(Params(1.0, 2.0), 0.0);
    assert GrantedSince([Entry(0.0, 0.0)], 1) == 0.0;
  }

  // ---------------------------------------------------------------------
  // Whole runs
  // ---------------------------------------------------------------------

  /** Counter and log after serving `reqs` on a bucket built at time t0. */
  function ServeAll(p: Params, t0: real, reqs: seq<Request>): (Level, seq<Entry>) {
    if reqs == [] then (Fresh(p, t0), [Entry(t0, 0.0)]) else
    var (b, log) := ServeAll(p, t0, reqs[..|reqs| - 1]);
    var r := reqs[|reqs| - 1];
    var (b', ok) := Take(p, b, r.time, r.tokens);
    (b', Extend(log, r.time, r.tokens, ok))
  }

  /** Line i+1 of the log belongs to request i. */
  lemma {:induction false} RunShape(p: Params, t0: real, reqs: seq<Request>)
    ensures var (b, log) := ServeAll(p, t0, reqs);
            && |log| == |reqs| + 1
            && log[0] == Entry(t0, 0.0)
            && (forall i | 0 <= i < |reqs| :: log[i + 1].time == reqs[i].time)
            && (forall i | 0 <= i < |reqs| :: log[i + 1].amount == reqs[i].tokens || log[i + 1].amount == 0.0)
            && Tracks(p, b, log)
  {
    if reqs == [] {
      FreshTracks(p, t0);
    } else {
      var front := reqs[..|reqs| - 1];
      RunShape(p, t0, front);
      var (b, log) := ServeAll(p, t0, front);
      TakeRefinesLog(p, b, log, reqs[|reqs| - 1].time, reqs[|reqs| - 1].tokens);
      assert forall i | 0 <= i < |front| :: front[i] == reqs[i];
    }
  }

  /** Serving more requests only appends to the log. */
  lemma {:induction false} RunPrefix(p: Params, t0: real, reqs: seq<Request>, k: nat)
    requires k <= |reqs|
    ensures |ServeAll(p, t0, reqs).1| == |reqs| + 1
    ensures ServeAll(p, t0, reqs[..k]).1 == ServeAll(p, t0, reqs).1[..k + 1]
  {
    RunShape(p, t0, reqs);
    RunShape(p, t0, reqs[..k]);
    if k == |reqs| {
      assert reqs[..k] == reqs;
    } else {
      var front := reqs[..|reqs| - 1];
      RunPrefix(p, t0, front, k);
      assert front[..k] == reqs[..k];
    }
  }

  /** Request i of the run was granted. */
  ghost predicate GrantedAt(p: Params, t0: real, reqs: seq<Request>, i: nat)
    requires i < |reqs|
  {
    Take(p, ServeAll(p, t0, reqs[..i]).0, reqs[i].time, reqs[i].tokens).1
  }

  /** Fast form equals simple form over every run: request i is granted exactly
      when the sliding-window rule over the log before it admits it, and the
      log then holds its amount, otherwise 0. */
  lemma RunMatchesLog(p: Params, t0: real, reqs: seq<Request>, i: nat)
    requires i < |reqs|
    ensures |ServeAll(p, t0, reqs).1| == |reqs| + 1
    ensures var log := ServeAll(p, t0, reqs).1;
            && (GrantedAt(p, t0, reqs, i) <==> Admits(p, log[..i + 1], reqs[i].time, reqs[i].tokens))
            && log[i + 1] == Entry(reqs[i].time, if GrantedAt(p, t0, reqs, i) then reqs[i].tokens else 0.0)
  {
    RunPrefix(p, t0, reqs, i);
    RunPrefix(p, t0, reqs, i + 1);
    RunShape(p, t0, reqs[..i]);
    var (b, log) := ServeAll(p, t0, reqs[..i]);
    TakeRefinesLog(p, b, log, reqs[i].time, reqs[i].tokens);
    assert reqs[..i + 1][..i] == reqs[..i];
  }

  // ---------------------------------------------------------------------
  // Real windows
  // ---------------------------------------------------------------------

  ghost predicate Ordered(log: seq<Entry>) {
    forall i, j | 0 <= i <= j < |log| :: log[i].time <= log[j].time
  }

  /** Every line that granted something was admitted by the log before it. */
  ghost predicate Lawful(p: Params, log: seq<Entry>) {
    && (forall k | 0 <= k < |log| :: 0.0 <= log[k].amount)
    && (forall k | 0 <= k < |log| && 0.0 < log[k].amount :: Admits(p, log[..k], log[k].time, log[k].amount))
  }

  /** Tokens granted at times in [a, b]. */
  function GrantedIn(log: seq<Entry>, a: real, b: real): real {
    if log == [] then 0.0 else
    var e := log[|log| - 1];
    GrantedIn(log[..|log| - 1], a, b) + if a <= e.time <= b then e.amount else 0.0
  }

  lemma {:induction false} GrantedInNone(log: seq<Entry>, a: real, b: real)
    requires forall i | 0 <= i < |log| :: log[i].time < a
    ensures GrantedIn(log, a, b) == 0.0
  {
    if log != [] {
      GrantedInNone(log[..|log| - 1], a, b);
    }
  }

  /** On an ordered log a real window that reaches past the end holds the
      grants of a suffix of the log. */
  lemma {:induction false} WindowIsSuffix(log: seq<Entry>, a: real, b: real) returns (j: nat)
    requires Ordered(log)
    requires forall i | 0 <= i < |log| :: log[i].time <= b
    ensures j <= |log| && GrantedIn(log, a, b) == GrantedSince(log, j)
    ensures forall i | j <= i < |log| :: a <= log[i].time
  {
    if log == [] || log[|log| - 1].time < a {
      GrantedInNone(log, a, b);
      j := |log|;
    } else {
      var front := log[..|log| - 1];
      var e := log[|log| - 1];
      j := WindowIsSuffix(front, a, b);
      GrantedSinceAppend(front, e, j);
      assert front + [e] == log;
    }
  }

  /** In any window of real time the bucket grants at most a burst plus the
      rate times the length of the window. */
  lemma WindowBound(p: Params, log: seq<Entry>, a: real, b: real)
    requires 0.0 <= p.rate && a <= b
    requires Ordered(log) && Lawful(p, log)
    ensures 0.0 < GrantedIn(log, a, b) ==> GrantedIn(log, a, b) <= p.capacity + p.rate * (b - a)
  {
    hide Ordered, Lawful, GrantedIn;
    BoundedIn(p, log, a, b);
    assert Bound(p, a, b) == p.capacity + p.rate * (b - a);
  }

  lemma {:induction false} BoundedIn(p: Params, log: seq<Entry>, a: real, b: real)
    requires 0.0 <= p.rate && a <= b
    requires Ordered(log) && Lawful(p, log)
    ensures 0.0 < GrantedIn(log, a, b) ==> GrantedIn(log, a, b) <= Bound(p, a, b)
  {
    hide Bound;
    if log != [] {
      var front := log[..|log| - 1];
      var e := log[|log| - 1];
      assert forall k | 0 <= k < |front| :: front[..k] == log[..k] && front[k] == log[k];
      BoundedIn(p, front, a, b);
      if a <= e.time <= b && 0.0 < e.amount {
        LastGrant(p, front, e, a, b);
      }
    }
  }

  /** The step of BoundedIn: a window that ends just after an admitted line. */
  lemma LastGrant(p: Params, front: seq<Entry>, e: Entry, a: real, b: real)
    requires 0.0 <= p.rate && a <= e.time <= b
    requires Ordered(front) && forall i | 0 <= i < |front| :: front[i].time <= e.time
    requires Admits(p, front, e.time, e.amount)
    ensures GrantedIn(front, a, b) + e.amount <= Bound(p, a, b)
  {
    var j := WindowIsSuffix(front, a, b);
    if j < |front| {
      assert e.amount <= Slack(p, front, j, e.time);
      WiderBound(p, a, front[j].time, e.time, b);
    } else {
      WiderBound(p, a, e.time, e.time, b);
    }
  }

  lemma WiderBound(p: Params, a: real, b: real, c: real, d: real)
    requires 0.0 <= p.rate && a <= b <= c <= d
    ensures Bound(p, b, c) <= Bound(p, a, d)
  {
    var x, y := c - b, d - a;
    assert p.rate * x <= p.rate * y;
  }

  /** A run on an ordered clock with non-negative requests keeps the bound. */
  lemma RunWindowBound(p: Params, t0: real, reqs: seq<Request>, a: real, b: real)
    requires 0.0 <= p.rate && a <= b
    requires forall i | 0 <= i < |reqs| :: t0 <= reqs[i].time && 0.0 <= reqs[i].tokens
    requires forall i, j | 0 <= i <= j < |reqs| :: reqs[i].time <= reqs[j].time
    ensures var granted := GrantedIn(ServeAll(p, t0, reqs).1, a, b);
            0.0 < granted ==> granted <= p.capacity + p.rate * (b - a)
  {
    var log := ServeAll(p, t0, reqs).1;
    RunShape(p, t0, reqs);
    forall k | 0 <= k < |log| && 0.0 < log[k].amount
      ensures Admits(p, log[..k], log[k].time, log[k].amount)
    {
      RunMatchesLog(p, t0, reqs, k - 1);
    }
    forall i, j | 0 <= i <= j < |log|
      ensures log[i].time <= log[j].time
    {
      if i > 0 {
        assert log[i - 1 + 1].time == reqs[i - 1].time && log[j - 1 + 1].time == reqs[j - 1].time;
      } else if j > 0 {
        assert log[j - 1 + 1].time == reqs[j - 1].time;
      }
    }
    forall k | 0 <= k < |log|
      ensures 0.0 <= log[k].amount
    {
      if k > 0 {
        assert log[k - 1 + 1].amount == reqs[k - 1].tokens || log[k - 1 + 1].amount == 0.0;
      }
    }
    WindowBound(p, log, a, b);
  }

  // ---------------------------------------------------------------------
  // Greedy optimality for unit requests
  // ---------------------------------------------------------------------

  function Units(times: seq<real>): (reqs: seq<Request>)
    ensures |reqs| == |times|
    ensures forall i | 0 <= i < |times| :: reqs[i] == Request(times[i], 1.0)
  {
    seq(|times|, i requires 0 <= i < |times| => Request(times[i], 1.0))
  }

  /** Arrival times on a non-decreasing clock, none before t0. */
  ghost predicate Arrivals(t0: real, times: seq<real>) {
    forall i, j | 0 <= i <= j < |times| :: t0 <= times[i] <= times[j]
  }

  /** Number of grants among the first k of a schedule. */
  function Count(grants: seq<bool>, k: nat): nat
    requires k <= |grants|
  {
    if k == 0 then 0 else Count(grants, k - 1) + if grants[k - 1] then 1 else 0
  }

  /** With `extra` more tokens, arrivals i, ..., k-1 stay within the bound at arrival k. */
  ghost predicate Fits(p: Params, times: seq<real>, grants: seq<bool>, i: nat, k: nat, extra: real)
    requires |grants| == |times| && i <= k < |times|
  {
    (Count(grants, k) - Count(grants, i)) as real + extra <= Bound(p, times[i], times[k])
  }

  /** A schedule keeps the sliding-window bound: no window that ends at a grant
      holds more than capacity + rate * elapsed. */
  ghost predicate KeepsBound(p: Params, times: seq<real>, grants: seq<bool>)
    requires |grants| == |times|
  {
    forall i, k | 0 <= i <= k < |times| && grants[k] :: Fits(p, times, grants, i, k, 1.0)
  }

  /** The schedule the bucket produces. */
  ghost function Greedy(p: Params, t0: real, times: seq<real>): (grants: seq<bool>)
    ensures |grants| == |times|
  {
    seq(|times|, i requires 0 <= i < |times| => GrantedAt(p, t0, Units(times), i))
  }

  /** `log` is a bucket log for arrivals `times` in which line i+1 records verdict i. */
  ghost predicate LogOf(p: Params, t0: real, times: seq<real>, grants: seq<bool>, log: seq<Entry>) {
    && |grants| == |times| && |log| == |times| + 1
    && log[0] == Entry(t0, 0.0)
    && (forall i | 0 <= i < |times| :: log[i + 1] == Entry(times[i], if grants[i] then 1.0 else 0.0))
    && (forall i | 0 <= i < |times| :: grants[i] <==> Admits(p, log[..i + 1], times[i], 1.0))
  }

  lemma GreedyLog(p: Params, t0: real, times: seq<real>) returns (log: seq<Entry>)
    ensures LogOf(p, t0, times, Greedy(p, t0, times), log)
  {
    var reqs := Units(times);
    log := ServeAll(p, t0, reqs).1;
    RunShape(p, t0, reqs);
    forall i | 0 <= i < |times|
      ensures log[i + 1] == Entry(times[i], if Greedy(p, t0, times)[i] then 1.0 else 0.0)
      ensures Greedy(p, t0, times)[i] <==> Admits(p, log[..i + 1], times[i], 1.0)
    {
      RunMatchesLog(p, t0, reqs, i);
    }
  }

  lemma {:induction false} LogCounts(p: Params, t0: real, times: seq<real>, g: seq<bool>, log: seq<Entry>, i: nat, k: nat)
    requires LogOf(p, t0, times, g, log)
    requires i <= k <= |times|
    ensures GrantedSince(log[..k + 1], i + 1) == (Count(g, k) - Count(g, i)) as real
  {
    if i < k {
      LogCounts(p, t0, times, g, log, i, k - 1);
      GrantedSinceAppend(log[..k], log[k], i + 1);
      assert log[..k] + [log[k]] == log[..k + 1];
      assert log[k - 1 + 1] == Entry(times[k - 1], if g[k - 1] then 1.0 else 0.0);
    }
  }

  lemma WindowSlack(p: Params, t0: real, times: seq<real>, g: seq<bool>, log: seq<Entry>, i: nat, k: nat)
    requires LogOf(p, t0, times, g, log)
    requires i < k < |times|
    ensures Slack(p, log[..k + 1], i + 1, times[k]) == Bound(p, times[i], times[k]) - (Count(g, k) - Count(g, i)) as real
  {
    LogCounts(p, t0, times, g, log, i, k);
    assert log[i + 1].time == times[i];
  }

  /** Request k overfills some window that opens at an arrival. */
  ghost predicate Overfull(p: Params, times: seq<real>, g: seq<bool>, k: nat)
    requires |g| == |times| && k < |times|
  {
    exists i | 0 <= i <= k :: !Fits(p, times, g, i, k, 1.0)
  }

  lemma RefusedIsOverfull(p: Params, t0: real, times: seq<real>, g: seq<bool>, log: seq<Entry>, k: nat)
    requires LogOf(p, t0, times, g, log)
    requires 0.0 <= p.rate
    requires k < |times| && Arrivals(t0, times)
    requires !g[k]
    ensures Overfull(p, times, g, k)
  {
    var before := log[..k + 1];
    if 1.0 > p.capacity {
      assert !Fits(p, times, g, k, k, 1.0);
    } else {
      var j :| 0 <= j < |before| && 1.0 > Slack(p, before, j, times[k]);
      if j > 0 {
        WindowSlack(p, t0, times, g, log, j - 1, k);
        assert !Fits(p, times, g, j - 1, k, 1.0);
      } else {
        LogCounts(p, t0, times, g, log, 0, k);
        assert GrantedSince(before, 0) == GrantedSince(before, 1);
        WiderBound(p, t0, times[0], times[k], times[k]);
        assert !Fits(p, times, g, 0, k, 1.0);
      }
    }
  }

  /** Greedy optimality: in every prefix of a run of unit requests the bucket
      grants at least as many as any schedule that keeps the bound on the same
      arrival times. */
  lemma GreedyIsOptimal(p: Params, t0: real, times: seq<real>, other: seq<bool>, k: nat)
    requires 0.0 <= p.rate
    requires Arrivals(t0, times)
    requires |other| == |times| && KeepsBound(p, times, other)
    requires k <= |times|
    ensures Count(other, k) <= Count(Greedy(p, t0, times), k)
  {
    var g := Greedy(p, t0, times);
    var log := GreedyLog(p, t0, times);
    forall i | 0 <= i < |times| && !g[i]
      ensures Overfull(p, times, g, i)
    {
      RefusedIsOverfull(p, t0, times, g, log, i);
    }
    StaysAhead(p, times, g, other, k);
  }

  lemma Overtaken(p: Params, times: seq<real>, g: seq<bool>, other: seq<bool>, i: nat, k: nat)
    requires |g| == |times| == |other| && i <= k < |times|
    requires !Fits(p, times, g, i, k, 1.0) && Fits(p, times, other, i, k, 1.0)
    requires Count(other, i) <= Count(g, i)
    ensures Count(other, k) < Count(g, k)
  {
    var x, y := Count(g, k) - Count(g, i), Count(other, k) - Count(other, i);
    assert y as real < x as real;
  }

  /** A schedule that refuses only overfull requests stays ahead of every
      schedule that keeps the bound. */
  lemma {:induction false} StaysAhead(p: Params, times: seq<real>, g: seq<bool>, other: seq<bool>, k: nat)
    requires |g| == |times| && forall i | 0 <= i < |times| && !g[i] :: Overfull(p, times, g, i)
    requires |other| == |times| && KeepsBound(p, times, other)
    requires k <= |times|
    ensures Count(other, k) <= Count(g, k)
    decreases k
  {
    hide Fits;
    if k > 0 {
      StaysAhead(p, times, g, other, k - 1);
      if other[k - 1] && !g[k - 1] {
        assert Overfull(p, times, g, k - 1);
        var i :| 0 <= i <= k - 1 && !Fits(p, times, g, i, k - 1, 1.0);
        StaysAhead(p, times, g, other, i);
        assert Fits(p, times, other, i, k - 1, 1.0);
        Overtaken(p, times, g, other, i, k - 1);
      }
    }
  }

  /** The bucket's own schedule keeps the bound, so the optimum is attained. */
  lemma GreedyKeepsBound(p: Params, t0: real, times: seq<real>)
    ensures KeepsBound(p, times, Greedy(p, t0, times))
  {
    var g := Greedy(p, t0, times);
    var log := GreedyLog(p, t0, times);
    forall i, k | 0 <= i <= k < |times| && g[k]
      ensures Fits(p, times, g, i, k, 1.0)
    {
      AdmittedFits(p, t0, times, g, log, i, k);
    }
  }

  lemma AdmittedFits(p: Params, t0: real, times: seq<real>, g: seq<bool>, log: seq<Entry>, i: nat, k: nat)
    requires LogOf(p, t0, times, g, log)
    requires i <= k < |times| && g[k]
    ensures Fits(p, times, g, i, k, 1.0)
  {
    assert Admits(p, log[..k + 1], times[k], 1.0);
    if i < k {
      hide Slack, Bound;
      assert 1.0 <= Slack(p, log[..k + 1], i + 1, times[k]);
      WindowSlack(p, t0, times, g, log, i, k);
    } else {
      assert Bound(p, times[k], times[k]) == p.capacity;
    }
  }

  // ---------------------------------------------------------------------
  // Senders that keep the bound themselves
  // ---------------------------------------------------------------------

  /** Tokens that requests i, ..., k-1 ask for. */
  function Wanted(reqs: seq<Request>, i: nat, k: nat): real
    requires i <= k <= |reqs|
  {
    if i == k then 0.0 else Wanted(reqs, i, k - 1) + reqs[k - 1].tokens
  }

  /** Requests i, ..., k together stay within the bound of their window. */
  ghost predicate Modest(p: Params, reqs: seq<Request>, i: nat, k: nat)
    requires i <= k < |reqs|
  {
    Wanted(reqs, i, k + 1) <= p.capacity + p.rate * (reqs[k].time - reqs[i].time)
  }

  ghost predicate ModestSender(p: Params, t0: real, reqs: seq<Request>) {
    && (forall i, k | 0 <= i <= k < |reqs| :: t0 <= reqs[i].time <= reqs[k].time)
    && (forall i, k | 0 <= i <= k < |reqs| :: Modest(p, reqs, i, k))
  }

  /** The log of a run whose first k requests were granted. */
  ghost predicate AllLogged(reqs: seq<Request>, log: seq<Entry>, t0: real, k: nat) {
    && k <= |reqs| && |log| == k + 1 && log[0] == Entry(t0, 0.0)
    && forall i | 0 <= i < k :: log[i + 1] == Entry(reqs[i].time, reqs[i].tokens)
  }

  lemma {:induction false} LoggedSum(reqs: seq<Request>, log: seq<Entry>, t0: real, i: nat, k: nat)
    requires i <= k && AllLogged(reqs, log, t0, k)
    ensures GrantedSince(log, i + 1) == Wanted(reqs, i, k)
    decreases k
  {
    if i < k {
      var front := log[..k];
      assert AllLogged(reqs, front, t0, k - 1);
      LoggedSum(reqs, front, t0, i, k - 1);
      GrantedSinceAppend(front, log[k], i + 1);
      assert front + [log[k]] == log;
      assert log[k - 1 + 1] == Entry(reqs[k - 1].time, reqs[k - 1].tokens);
    }
  }

  lemma ModestSlack(p: Params, t0: real, reqs: seq<Request>, log: seq<Entry>, j: nat, k: nat)
    requires 0.0 <= p.rate && ModestSender(p, t0, reqs)
    requires k < |reqs| && AllLogged(reqs, log, t0, k) && j <= k
    ensures reqs[k].tokens <= Slack(p, log, j, reqs[k].time)
  {
    assert Modest(p, reqs, k, k);
    if j > 0 {
      LoggedSum(reqs, log, t0, j - 1, k);
      assert Modest(p, reqs, j - 1, k);
      assert log[j - 1 + 1].time == reqs[j - 1].time;
    } else {
      LoggedSum(reqs, log, t0, 0, k);
      assert GrantedSince(log, 0) == GrantedSince(log, 1);
      assert Modest(p, reqs, 0, k);
      WiderBound(p, t0, reqs[0].time, reqs[k].time, reqs[k].time);
    }
  }

  /** A sender that itself keeps the bound is never refused. */
  lemma {:induction false} ModestSenderNeverRefused(p: Params, t0: real, reqs: seq<Request>, k: nat)
    requires 0.0 <= p.rate && ModestSender(p, t0, reqs)
    requires k <= |reqs|
    ensures forall i | 0 <= i < k :: GrantedAt(p, t0, reqs, i)
    ensures |ServeAll(p, t0, reqs).1| == |reqs| + 1
    ensures AllLogged(reqs, ServeAll(p, t0, reqs).1[..k + 1], t0, k)
  {
    hide ServeAll, GrantedAt, Modest;
    RunShape(p, t0, reqs);
    var log := ServeAll(p, t0, reqs).1;
    if k > 0 {
      ModestSenderNeverRefused(p, t0, reqs, k - 1);
      var before, r := log[..k], reqs[k - 1];
      forall j | 0 <= j < |before|
        ensures r.tokens <= Slack(p, before, j, r.time)
      {
        ModestSlack(p, t0, reqs, before, j, k - 1);
      }
      WithinCapacity(p, t0, reqs, k - 1);
      RunMatchesLog(p, t0, reqs, k - 1);
      var after := log[..k + 1];
      assert forall i | 0 <= i < k :: after[i] == before[i];
    }
  }

  lemma WithinCapacity(p: Params, t0: real, reqs: seq<Request>, k: nat)
    requires ModestSender(p, t0, reqs) && k < |reqs|
    ensures reqs[k].tokens <= p.capacity
  {
    assert Modest(p, reqs, k, k);
    assert Wanted(reqs, k, k + 1) == Wanted(reqs, k, k) + reqs[k].tokens;
    assert p.rate * (reqs[k].time - reqs[k].time) == 0.0;
  }

  // ---------------------------------------------------------------------
  // The class
  // ---------------------------------------------------------------------

  /** A bucket for one key. The ghost log is the history that the two mutable
      fields summarise. */
  class TokenBucket {
    const params: Params
    var tokens: real
    var last: real
    ghost var log: seq<Entry>

    ghost predicate Valid()
      reads this
    {
      Tracks(params, Value(), log)
    }

    function Value(): Level
      reads this
    {
      Level(tokens, last)
    }

    constructor (p: Params, now: real)
      ensures Valid() && params == p
      ensures tokens == p.capacity && last == now && log == [Entry(now, 0.0)]
    {
      params := p;
      tokens := p.capacity;
      last := now;
      log := [Entry(now, 0.0)];
      FreshTracks(p, now);
    }

    /** Try to take n tokens at clock reading `now`. The verdict is the
        sliding-window rule over the whole log. */
    method Consume(now: real, n: real) returns (ok: bool)
      requires Valid()
      modifies this
      ensures Valid()
      ensures ok <==> Admits(params, old(log), now, n)
      ensures log == old(log) + [Entry(now, if ok then n else 0.0)]
      ensures (Value(), ok) == Take(params, old(Value()), now, n)
    {
      ghost var before, history := Value(), log;
      var elapsed := now - last;
      tokens := Min(params.capacity, tokens + elapsed * params.rate);
      assert tokens == Refill(params, before, now);
      last := now;
      ok := tokens >= n;
      if ok {
        tokens := tokens - n;
      }
      log := Extend(log, now, n, ok);
      assert Take(params, before, now, n) == (Value(), ok);
      TakeRefinesLog(params, before, history, now, n);
    }
  }
}
