/**
 `handle_client` of server/server_main.py as the imperative code it is, over a
 RateLimiter object. Each of its calls is one step of the server's state
 machine by this thread, so all that holds of the machine's runs holds of the
 events the code leaves behind.
 */
module HandleClient {
  import opened Bytes
  import opened Bucket
  import opened Limiter
  import opened Framing
  import opened Handler
  import opened Server
  import opened Accounting
  import opened RateBound

  /** How the next call out of the handler ends, and when. */
  datatype Call = Call(now: real, choice: Choice)

  /** A script of the environment in the order of its clock. */
  ghost predicate Clocked(script: seq<Call>, clock: real) {
    && (forall k | 0 <= k < |script| :: clock <= script[k].now && !script[k].choice.Spawn?)
    && (forall j, k | 0 <= j <= k < |script| :: script[j].now <= script[k].now)
  }

  /** The limiter's bucket objects hold what the machine's heap says. */
  ghost predicate BucketsMirror(limiter: RateLimiter, heap: seq<Level>, buckets: map<Ip, nat>)
    reads limiter`buckets, limiter.buckets.Values
  {
    && limiter.Valid()
    && limiter.buckets.Keys == buckets.Keys
    && Separate(heap, buckets)
    && (forall ip | ip in buckets :: heap[buckets[ip]] == limiter.buckets[ip].Value())
  }

  /** The limiter object holds what the machine's shared state says. */
  ghost predicate Mirrors(limiter: RateLimiter, sh: Shared)
    reads limiter, limiter.buckets.Values
  {
    limiter.Value() == sh.tables && BucketsMirror(limiter, sh.heap, sh.buckets)
  }

  lemma OnTheHeap(heap: seq<Level>, buckets: map<Ip, nat>, ip: Ip)
    requires Separate(heap, buckets) && ip in buckets
    ensures buckets[ip] < |heap|
  {
  }

  lemma Mirrored(limiter: RateLimiter, heap: seq<Level>, buckets: map<Ip, nat>)
    requires BucketsMirror(limiter, heap, buckets)
    ensures Separate(heap, buckets) && limiter.buckets.Keys == buckets.Keys
  {
    hide Tracks;
  }

  /** The lookup on the object is the lookup on the heap. */
  method LookupMirrored(limiter: RateLimiter, ip: Ip, now: real, ghost heap: seq<Level>, ghost buckets: map<Ip, nat>)
    returns (bucket: TokenBucket, built: bool)
    requires BucketsMirror(limiter, heap, buckets)
    modifies limiter`buckets
    ensures built <==> ip !in buckets
    ensures BucketsMirror(limiter,
                          if built then heap + [Fresh(limiter.limits.BucketParams(), now)] else heap,
                          if built then buckets[ip := |heap|] else buckets)
    ensures ip in limiter.buckets && bucket == limiter.buckets[ip]
    ensures fresh(limiter.buckets.Values - old(limiter.buckets.Values))
  {
    hide Tracks, Fresh, Separate;
    built := ip !in limiter.buckets;
    bucket := limiter.LookupBucket(ip, now);
    if built {
      NewLevel(limiter.limits, now);
      SeparateGrows(heap, buckets, ip, Fresh(limiter.limits.BucketParams(), now));
    } else {
      assert limiter.buckets == old(limiter.buckets);
    }
    forall other | other in buckets && other != ip
      ensures buckets[other] < |heap| && heap[buckets[other]] == limiter.buckets[other].Value()
    {
      OnTheHeap(heap, buckets, other);
      assert limiter.buckets[other] == old(limiter.buckets[other]);
    }
  }

  lemma NewLevel(l: Limits, now: real)
    ensures Fresh(l.BucketParams(), now) == Level(l.burst, now)
  {
  }

  lemma SeparateGrows(heap: seq<Level>, buckets: map<Ip, nat>, ip: Ip, level: Level)
    requires Separate(heap, buckets)
    ensures Separate(heap + [level], buckets[ip := |heap|])
    ensures (heap + [level])[|heap|] == level
  {
  }

  /** Consuming from the object is consuming from its cell on the heap. */
  method ConsumeMirrored(limiter: RateLimiter, ip: Ip, bucket: TokenBucket, now: real,
                         ghost heap: seq<Level>, ghost buckets: map<Ip, nat>)
    returns (ok: bool)
    requires BucketsMirror(limiter, heap, buckets)
    requires ip in limiter.buckets && bucket == limiter.buckets[ip]
    modifies bucket
    ensures var (level, granted) := Take(limiter.limits.BucketParams(), heap[buckets[ip]], now, 1.0);
            ok == granted && BucketsMirror(limiter, heap[buckets[ip] := level], buckets)
  {
    hide Tracks, Take, Admits;
    ok := bucket.Consume(now, 1.0);
    forall other | other in buckets && other != ip
      ensures limiter.buckets[other].Valid() && heap[buckets[other]] == limiter.buckets[other].Value()
    {
      assert limiter.buckets[other] != bucket;
    }
  }

  /** A handler thread at work. The script says how its calls end; when it is
      used up every further call raises. */
  class Thread {
    const cfg: Config
    const tid: Tid
    const ip: Ip
    const limiter: RateLimiter
    var script: seq<Call>
    var clock: real
    var trace: History
    ghost const whole: seq<Call>      // the script at the beginning
    ghost const origin: State         // the machine when the thread began
    ghost var inputs: seq<Input>      // its steps since then, all of this thread
    ghost var machine: State          // the machine now

    /** The machine agrees with the objects, and this thread is at `l` in it. */
    ghost predicate At(l: Local)
      reads this, limiter, limiter.buckets.Values
    {
      && limiter.limits == cfg.limits
      && Mirrors(limiter, machine.shared)
      && machine.clock <= clock && Clocked(script, clock)
      && tid in machine.workers
      && machine.workers[tid].ip == ip && machine.workers[tid].local == l
      && HoldsItsBucket(machine.shared, machine.workers[tid])
      && HistoryOf(machine.log, tid) == trace && |trace| == |inputs|
      && OwnSteps() && OnScript()
    }

    ghost predicate OwnSteps()
      reads this
    {
      && machine == Steps(cfg, origin, inputs)
      && (forall k | 0 <= k < |inputs| :: inputs[k].tid == tid)
    }

    /** Step k is what call k of the script says. */
    ghost predicate OnScript()
      reads `script, `inputs
    {
      && script == RestFrom(whole, |inputs|)
      && (forall k | 0 <= k < |inputs| :: inputs[k].choice == CallAt(whole, k).choice)
      && (forall k | 0 <= k < |inputs| && k < |whole| :: inputs[k].now == whole[k].now)
    }

    /** The script's call `c` is under way, and not yet a step. */
    ghost predicate Calling(c: Call)
      reads `script, `inputs
    {
      && script == RestFrom(whole, |inputs| + 1) && c.choice == CallAt(whole, |inputs|).choice
      && (|inputs| < |whole| ==> c.now == whole[|inputs|].now)
      && (forall k | 0 <= k < |inputs| :: inputs[k].choice == CallAt(whole, k).choice)
      && (forall k | 0 <= k < |inputs| && k < |whole| :: inputs[k].now == whole[k].now)
    }

    constructor (cfg: Config, tid: Tid, ip: Ip, limiter: RateLimiter, script: seq<Call>, clock: real, ghost origin: State)
      requires limiter.limits == cfg.limits && Mirrors(limiter, origin.shared)
      requires origin.clock <= clock && Clocked(script, clock)
      requires tid in origin.workers && origin.workers[tid] == Worker(ip, START, 0)
      requires HistoryOf(origin.log, tid) == []
      ensures At(START) && trace == []
      ensures this.cfg == cfg && this.tid == tid && this.ip == ip && this.limiter == limiter
      ensures this.origin == origin && this.whole == script
    {
      this.cfg, this.tid, this.ip, this.limiter := cfg, tid, ip, limiter;
      this.script, this.clock := script, clock;
      trace := [];
      this.origin, machine, inputs := origin, origin, [];
      this.whole := script;
    }

    /** The environment's next decision. */
    method NextCall() returns (c: Call)
      requires Clocked(script, clock) && OnScript()
      modifies `script, `clock
      ensures Calling(c)
      ensures Clocked(script, clock) && old(clock) <= c.now == clock && !c.choice.Spawn?
      ensures |script| < |old(script)| || (script == [] && c.choice.Throw?)
      ensures |script| <= |old(script)|
    {
      if script == [] {
        c := Call(clock, Throw);
      } else {
        c := script[0];
        script, clock := script[1..], c.now;
      }
    }

    /** Take the machine step that a call amounts to. */
    ghost method Tick(c: Call, l: Local)
      requires tid in machine.workers && machine.workers[tid].ip == ip && machine.workers[tid].local == l
      requires !l.pc.Ended? && machine.clock <= c.now && !c.choice.Spawn?
      requires HistoryOf(machine.log, tid) == trace && OwnSteps() && Calling(c)
      modifies `machine, `inputs
      ensures OwnSteps() && OnScript() && |inputs| == old(|inputs|) + 1
      ensures var a := Perform(cfg, old(machine.shared), old(machine.workers[tid]), c.now, c.choice);
              && machine.shared == a.shared && machine.clock == c.now
              && tid in machine.workers && machine.workers[tid] == Worker(ip, After(l, a.what), a.bucket)
              && HistoryOf(machine.log, tid) == trace + [a.what]
    {
      hide Perform, After, Steps, RestFrom, CallAt;
      var i := Input(tid, c.now, c.choice);
      var a := Perform(cfg, machine.shared, machine.workers[tid], c.now, c.choice);
      HistoryAppend(machine.log, Event(tid, ip, c.now, a.what), tid);
      StepsAppend(cfg, origin, inputs, i);
      machine := Next(cfg, machine, i);
      inputs := inputs + [i];
    }

    /** A call that does not touch the limiter. */
    method Outside(l: Local) returns (what: What)
      requires At(l) && OutsideLimiter(l.pc)
      modifies this
      ensures At(After(l, what)) && trace == old(trace) + [what]
      ensures Enabled(cfg, ip, l, what)
      ensures |script| <= |old(script)|
    {
      hide Perform, After, Enabled, OnScript, Calling, Returned, Mirrors, Steps;
      ghost var w := machine.workers[tid];
      var c := NextCall();
      PerformIsEnabled(cfg, machine.shared, w, c.now, c.choice);
      PerformOutside(cfg, machine.shared, w, c.now, c.choice);
      Tick(c, l);
      what := Returned(cfg, ip, l, c);
      trace := trace + [what];
      HoldsNothing(cfg, ip, l, what, machine.shared, machine.workers[tid]);
    }

    method Admit(l: Local) returns (what: What)
      requires At(l) && l.pc.AtAdmit?
      modifies this, limiter`connections, limiter`total, limiter`lastActivity
      ensures At(After(l, what)) && trace == old(trace) + [what]
      ensures Enabled(cfg, ip, l, what)
    {
      hide Perform, After, Enabled, OnScript, Calling, Steps, BucketsMirror, TryAdd;
      ghost var w, sh := machine.workers[tid], machine.shared;
      var c := NextCall();
      PerformIsEnabled(cfg, sh, w, c.now, c.choice);
      PerformLimiter(cfg, sh, w, c.now, c.choice);
      if c.choice.Throw? {
        what := Raised;
      } else {
        var ok := limiter.TryAddConnection(ip, c.now);
        what := if ok then Admitted else CapRefused;
      }
      Tick(c, l);
      trace := trace + [what];
      NotAtConsume(cfg, ip, l, what);
    }

    method CheckIdle(l: Local) returns (what: What)
      requires At(l) && l.pc.AtIdleCheck?
      modifies this
      ensures At(After(l, what)) && trace == old(trace) + [what]
      ensures Enabled(cfg, ip, l, what)
      ensures what == StillActive ==> |script| < |old(script)|
    {
      hide Perform, After, Enabled, OnScript, Calling, Steps, BucketsMirror, IsIdle;
      ghost var w, sh := machine.workers[tid], machine.shared;
      var c := NextCall();
      PerformIsEnabled(cfg, sh, w, c.now, c.choice);
      PerformLimiter(cfg, sh, w, c.now, c.choice);
      if c.choice.Throw? {
        what := Raised;
      } else {
        var idle := limiter.CheckIdle(ip, c.now);
        what := if idle then WentIdle else StillActive;
      }
      Tick(c, l);
      trace := trace + [what];
      NotAtConsume(cfg, ip, l, what);
    }

    method TouchIp(l: Local) returns (what: What)
      requires At(l) && l.pc.AtTouch?
      modifies this, limiter`lastActivity
      ensures At(After(l, what)) && trace == old(trace) + [what]
      ensures Enabled(cfg, ip, l, what)
      ensures |script| <= |old(script)|
    {
      hide Perform, After, Enabled, OnScript, Calling, Steps, BucketsMirror, Touch;
      ghost var w, sh := machine.workers[tid], machine.shared;
      var c := NextCall();
      PerformIsEnabled(cfg, sh, w, c.now, c.choice);
      PerformLimiter(cfg, sh, w, c.now, c.choice);
      if c.choice.Throw? {
        what := Raised;
      } else {
        limiter.TouchIp(ip, c.now);
        what := Touched;
      }
      Tick(c, l);
      trace := trace + [what];
      NotAtConsume(cfg, ip, l, what);
    }

    method Cleanup(l: Local)
      requires At(l) && l.pc.AtRemove?
      modifies this, limiter`connections, limiter`total
      ensures At(After(l, Removed)) && trace == old(trace) + [Removed]
    {
      hide Perform, After, Enabled, OnScript, Calling, Steps, BucketsMirror, Remove;
      ghost var w, sh := machine.workers[tid], machine.shared;
      var c := NextCall();
      PerformIsEnabled(cfg, sh, w, c.now, c.choice);
      PerformLimiter(cfg, sh, w, c.now, c.choice);
      limiter.RemoveConnection(ip);
      Tick(c, l);
      trace := trace + [Removed];
      NotAtConsume(cfg, ip, l, Removed);
    }

    /** First half of check_rate, under the limiter's lock. */
    method Lookup(l: Local) returns (what: What, bucket: TokenBucket?)
      requires At(l) && l.pc.AtLookup?
      modifies this, limiter`buckets
      ensures At(After(l, what)) && trace == old(trace) + [what]
      ensures Enabled(cfg, ip, l, what)
      ensures what.Looked? ==> bucket != null && ip in limiter.buckets && bucket == limiter.buckets[ip]
      ensures fresh(limiter.buckets.Values - old(limiter.buckets.Values))
      ensures |script| <= |old(script)|
    {
      hide Perform, After, Enabled, OnScript, Calling, Steps, BucketsMirror;
      ghost var w, sh := machine.workers[tid], machine.shared;
      var c := NextCall();
      PerformIsEnabled(cfg, sh, w, c.now, c.choice);
      PerformLookup(cfg, sh, w, c.now, c.choice);
      if c.choice.Throw? {
        what, bucket := Raised, null;
      } else {
        var built;
        bucket, built := LookupMirrored(limiter, ip, c.now, sh.heap, sh.buckets);
        what := Looked(built);
      }
      Tick(c, l);
      trace := trace + [what];
      AfterLookup(cfg, ip, l, what);
    }

    /** Second half of check_rate, under the bucket's own lock. */
    method Consume(l: Local, bucket: TokenBucket) returns (what: What)
      requires At(l) && l.pc.AtConsume?
      requires ip in limiter.buckets && bucket == limiter.buckets[ip]
      modifies this, bucket
      ensures At(After(l, what)) && trace == old(trace) + [what]
      ensures Enabled(cfg, ip, l, what)
      ensures |script| <= |old(script)|
    {
      hide Perform, After, Enabled, OnScript, Calling, Steps, BucketsMirror, Take;
      Mirrored(limiter, machine.shared.heap, machine.shared.buckets);
      ghost var w, sh := machine.workers[tid], machine.shared;
      var c := NextCall();
      PerformIsEnabled(cfg, sh, w, c.now, c.choice);
      OnTheHeap(sh.heap, sh.buckets, ip);
      PerformConsume(cfg, sh, w, c.now, c.choice);
      if c.choice.Throw? {
        what := Raised;
      } else {
        var ok := ConsumeMirrored(limiter, ip, bucket, c.now, sh.heap, sh.buckets);
        what := Verdict(ok, c.now);
      }
      Tick(c, l);
      trace := trace + [what];
      NotAtConsume(cfg, ip, l, what);
    }

    /** check_rate: the two halves, or an exception out of either. */
    method CheckRate(keys: Keys, request: Bytes) returns (what: What)
      requires At(Local(AtLookup(request), keys))
      modifies this, limiter`buckets, limiter.buckets.Values
      ensures what == Raised || what.Verdict?
      ensures trace != [] && trace[|trace| - 1] == what
      ensures At(Local(if what == Raised then AtRemove else if what.ok then AtForward(request, what.at) else AtRefuse, keys))
      ensures fresh(limiter.buckets.Values - old(limiter.buckets.Values))
      ensures |script| <= |old(script)|
    {
      hide At, Genuine;
      var bucket;
      what, bucket := Lookup(Local(AtLookup(request), keys));
      if what != Raised {
        what := Consume(Local(AtConsume(request), keys), bucket);
      }
    }

    /** forward_request and the reply, or the ERROR frame. True if the serve loop
        goes on, false if an exception leaves it. */
    method Answer(keys: Keys, request: Bytes, verdict: What) returns (looping: bool)
      requires verdict.Verdict?
      requires At(Local(if verdict.ok then AtForward(request, verdict.at) else AtRefuse, keys))
      modifies this
      ensures At(Local(if looping then AtIdleCheck else AtRemove, keys))
      ensures trace != [] && (looping <==> trace[|trace| - 1] == SentError || trace[|trace| - 1].SentResponse?)
      ensures !looping ==> trace[|trace| - 1] == Raised
      ensures |script| <= |old(script)|
    {
      hide At, Genuine;
      if !verdict.ok {
        var sent := Outside(Local(AtRefuse, keys));
        return sent == SentError;
      }
      var forwarded := Outside(Local(AtForward(request, verdict.at), keys));
      var sent := Outside(Local(AtReply(forwarded.response), keys));
      return sent != Raised;
    }

    /** One accepted request. */
    method Process(keys: Keys, request: Bytes) returns (looping: bool)
      requires At(Local(AtTouch(request), keys))
      modifies this, limiter`buckets, limiter`lastActivity, limiter.buckets.Values
      ensures At(Local(if looping then AtIdleCheck else AtRemove, keys))
      ensures trace != [] && (looping <==> trace[|trace| - 1] == SentError || trace[|trace| - 1].SentResponse?)
      ensures !looping ==> trace[|trace| - 1] == Raised
      ensures fresh(limiter.buckets.Values - old(limiter.buckets.Values))
      ensures |script| <= |old(script)|
    {
      hide At, Genuine;
      var what := TouchIp(Local(AtTouch(request), keys));
      if what == Raised {
        return false;
      }
      what := CheckRate(keys, request);
      if what == Raised {
        return false;
      }
      looping := Answer(keys, request, what);
    }

    /** The inner try block: handshake and serve loop. */
    method Serve() returns (keys: Keys)
      requires At(Local(AtHandshake, START.keys))
      modifies this, limiter`buckets, limiter`lastActivity, limiter.buckets.Values
      ensures At(Local(AtRemove, keys))
      ensures trace != []
      ensures var last := trace[|trace| - 1]; last.FrameFailed? || last == WentIdle || last == Raised
      ensures fresh(limiter.buckets.Values - old(limiter.buckets.Values))
    {
      hide At, Genuine;
      var what := Outside(Local(AtHandshake, START.keys));
      if what == Raised {
        return START.keys;
      }
      keys := what.keys;
      what := Outside(Local(AtSetup, keys));
      if what == Raised {
        return;
      }
      while true
        invariant At(Local(AtIdleCheck, keys))
        invariant fresh(limiter.buckets.Values - old(limiter.buckets.Values))
        decreases |script|
      {
        what := CheckIdle(Local(AtIdleCheck, keys));
        if what != StillActive {
          break;
        }
        what := Outside(Local(AtRecv, keys));
        if what.FrameFailed? {
          break;
        }
        if what.Ignored? {
          continue;
        }
        var looping := Process(keys, what.message.payload);
        if !looping {
          break;
        }
      }
    }

    /** The whole handler: whatever its calls do, it ends, and the machine gets
        there by steps of this thread that leave behind exactly `trace`. */
    method Run() returns (keys: Keys)
      requires At(START)
      modifies this, limiter, limiter.buckets.Values
      ensures At(Local(Ended, keys))
    {
      hide At, Genuine;
      keys := START.keys;
      var what := Outside(START);
      if what != Allowed {
        return;
      }
      what := Admit(Local(AtAdmit, keys));
      if what != Admitted {
        return;
      }
      keys := Serve();
      Cleanup(Local(AtRemove, keys));
    }
  }

  /** What is left of a script after n calls, and call n; beyond its end all
      calls raise. */
  function RestFrom(whole: seq<Call>, n: nat): seq<Call> {
    if n <= |whole| then whole[n..] else []
  }

  function CallAt(whole: seq<Call>, n: nat): Call {
    if n < |whole| then whole[n] else Call(0.0, Throw)
  }

  predicate OutsideLimiter(pc: Pc) {
    pc.AtWhitelist? || pc.AtHandshake? || pc.AtSetup? || pc.AtRecv? || pc.AtRefuse? || pc.AtForward? || pc.AtReply?
  }

  /** What a call outside the limiter turns out to be. */
  function Returned(cfg: Config, ip: Ip, l: Local, c: Call): What {
    match l.pc
    case AtWhitelist => if c.choice.Throw? then Raised else if cfg.allowed(ip) then Allowed else Denied
    case AtHandshake => if c.choice.Agree? then Handshaken(c.choice.keys) else Raised
    case AtSetup => if c.choice.Throw? then Raised else SetUp
    case AtRecv => if c.choice.Stream? then Received(cfg.crypto, l.keys, c.choice.bytes) else FrameFailed(TimedOut)
    case AtRefuse => if c.choice.Throw? then Raised else SentError
    case AtForward(request, granted) => Forwarded(request, if c.choice.Respond? then c.choice.response else [], granted)
    case AtReply(response) => if c.choice.Throw? then Raised else SentResponse(response)
    case _ => Raised
  }

  lemma PerformOutside(cfg: Config, sh: Shared, w: Worker, now: real, ch: Choice)
    requires OutsideLimiter(w.local.pc)
    ensures Perform(cfg, sh, w, now, ch) == Act(Returned(cfg, w.ip, w.local, Call(now, ch)), sh, w.bucket)
  {
    hide Received;
  }

  /** What the actions on the limiter's tables amount to. */
  lemma PerformLimiter(cfg: Config, sh: Shared, w: Worker, now: real, ch: Choice)
    requires w.local.pc.AtAdmit? || w.local.pc.AtIdleCheck? || w.local.pc.AtTouch? || w.local.pc.AtRemove?
    ensures var a := Perform(cfg, sh, w, now, ch);
            && a.bucket == w.bucket && a.shared.heap == sh.heap && a.shared.buckets == sh.buckets
            && (ch.Throw? && !w.local.pc.AtRemove? ==> a.what == Raised && a.shared == sh)
            && (!ch.Throw? && w.local.pc.AtAdmit? ==>
                  var (t, ok) := TryAdd(cfg.limits, sh.tables, w.ip, now);
                  a.shared.tables == t && a.what == if ok then Admitted else CapRefused)
            && (!ch.Throw? && w.local.pc.AtIdleCheck? ==>
                  a.shared == sh && a.what == if IsIdle(cfg.limits, sh.tables, w.ip, now) then WentIdle else StillActive)
            && (!ch.Throw? && w.local.pc.AtTouch? ==>
                  a.shared.tables == Touch(sh.tables, w.ip, now) && a.what == Touched)
            && (w.local.pc.AtRemove? ==> a.shared.tables == Remove(sh.tables, w.ip) && a.what == Removed)
  {
    hide TryAdd, IsIdle, Touch, Remove;
  }

  lemma PerformLookup(cfg: Config, sh: Shared, w: Worker, now: real, ch: Choice)
    requires w.local.pc.AtLookup?
    ensures var a := Perform(cfg, sh, w, now, ch);
            if ch.Throw? then a == Act(Raised, sh, w.bucket)
            else if w.ip in sh.buckets then a == Act(Looked(false), sh, sh.buckets[w.ip])
            else
              && a.what == Looked(true) && a.bucket == |sh.heap| && a.shared.tables == sh.tables
              && a.shared.heap == sh.heap + [Fresh(cfg.limits.BucketParams(), now)]
              && a.shared.buckets == sh.buckets[w.ip := |sh.heap|]
  {
  }

  lemma PerformConsume(cfg: Config, sh: Shared, w: Worker, now: real, ch: Choice)
    requires w.local.pc.AtConsume? && w.bucket < |sh.heap|
    ensures var a := Perform(cfg, sh, w, now, ch);
            if ch.Throw? then a == Act(Raised, sh, w.bucket)
            else
              var (level, ok) := Take(cfg.limits.BucketParams(), sh.heap[w.bucket], now, 1.0);
              && a.what == Verdict(ok, now) && a.bucket == w.bucket
              && a.shared == sh.(heap := sh.heap[w.bucket := level])
  {
    hide Take;
  }

  lemma NotAtConsume(cfg: Config, ip: Ip, l: Local, what: What)
    requires Enabled(cfg, ip, l, what) && !l.pc.AtLookup?
    ensures !After(l, what).pc.AtConsume?
  {
    hide Genuine;
  }

  lemma AfterLookup(cfg: Config, ip: Ip, l: Local, what: What)
    requires Enabled(cfg, ip, l, what) && l.pc.AtLookup?
    ensures what.Looked? || !After(l, what).pc.AtConsume?
  {
    hide Genuine;
  }

  lemma HoldsNothing(cfg: Config, ip: Ip, l: Local, what: What, sh: Shared, w: Worker)
    requires OutsideLimiter(l.pc) && Enabled(cfg, ip, l, what) && w.local == After(l, what)
    ensures HoldsItsBucket(sh, w)
  {
    hide Genuine;
  }

  /** A run of the machine from any state. */
  function Steps(cfg: Config, s: State, inputs: seq<Input>): State {
    if inputs == [] then s else Next(cfg, Steps(cfg, s, inputs[..|inputs| - 1]), inputs[|inputs| - 1])
  }

  lemma StepsAppend(cfg: Config, s: State, inputs: seq<Input>, i: Input)
    ensures Steps(cfg, s, inputs + [i]) == Next(cfg, Steps(cfg, s, inputs), i)
  {
    assert (inputs + [i])[..|inputs|] == inputs;
  }

  lemma {:induction false} StepsGoOn(cfg: Config, t0: real, past: seq<Input>, inputs: seq<Input>)
    ensures Steps(cfg, Run(cfg, t0, past), inputs) == Run(cfg, t0, past + inputs)
  {
    hide Next;
    if inputs == [] {
      assert past + inputs == past;
    } else {
      var front, last := inputs[..|inputs| - 1], inputs[|inputs| - 1];
      StepsGoOn(cfg, t0, past, front);
      assert (past + inputs)[..|past + inputs| - 1] == past + front;
      assert (past + inputs)[|past + inputs| - 1] == last;
    }
  }

  /** handle_client on a server that has run so far as `past` says. It always
      ends; its events are those of one thread of a longer run of the server,
      with one reply per accepted request and every admission undone; and the
      limiter it leaves counts exactly the threads that still hold a connection. */
  method HandleConnection(cfg: Config, tid: Tid, ip: Ip, limiter: RateLimiter, script: seq<Call>, clock: real,
                          ghost t0: real, ghost past: seq<Input>)
    returns (trace: History, ghost inputs: seq<Input>)
    requires limiter.limits == cfg.limits && Mirrors(limiter, Run(cfg, t0, past).shared)
    requires Run(cfg, t0, past).clock <= clock && Clocked(script, clock)
    requires tid in Run(cfg, t0, past).workers && Run(cfg, t0, past).workers[tid] == Worker(ip, START, 0)
    modifies limiter, limiter.buckets.Values
    ensures Legal(cfg, ip, trace) && Replay(trace).pc.Ended?
    ensures Disciplined(Ended, Rounds(trace))
    ensures Times(trace, Admitted) == Times(trace, Removed) <= 1
    ensures |trace| == |inputs|
    ensures forall k | 0 <= k < |inputs| ::
              if k < |script| then inputs[k] == Input(tid, script[k].now, script[k].choice)
              else inputs[k].tid == tid && inputs[k].choice == Throw
    ensures var s := Run(cfg, t0, past + inputs);
            && tid in s.workers && HistoryOf(s.log, tid) == trace
            && Mirrors(limiter, s.shared)
            && Accounted(cfg, s)
  {
    hide Perform, Next, Legal, Replay, Genuine, Mirrors, Accounted, Disciplined, Run;
    RunThreaded(cfg, t0, past);
    StartHistory(cfg, ip, Worker(ip, START, 0), HistoryOf(Run(cfg, t0, past).log, tid));
    var thread := new Thread(cfg, tid, ip, limiter, script, clock, Run(cfg, t0, past));
    var keys := thread.Run();
    trace, inputs := thread.trace, thread.inputs;
    StepsGoOn(cfg, t0, past, inputs);
    RunThreaded(cfg, t0, past + inputs);
    RunAccounted(cfg, t0, past + inputs);
    OneReplyEach(cfg, ip, trace);
    UndoneExactlyOnce(cfg, ip, trace);
  }

  lemma StartHistory(cfg: Config, ip: Ip, w: Worker, h: History)
    requires w.local == START && w.ip == ip && Follows(cfg, w, h)
    ensures h == []
  {
    hide Genuine;
    LegalShape(cfg, ip, h);
  }
}
