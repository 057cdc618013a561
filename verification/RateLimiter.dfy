/**
 The per-IP limiter of server/rate_limit.py: connection caps, activity times
 and one token bucket per IP. Clock readings are parameters.
 */
module Limiter {
  import opened Bucket

  type Ip = string

  datatype Limits = Limits(
    rps: real, burst: real,
    maxPerIp: int, maxTotal: int,
    idleTimeout: real)
  {
    function BucketParams(): Params {
      Params(rps, burst)
    }
  }

  /** The limiter's connection and activity tables. */
  datatype Tables = Tables(connections: map<Ip, int>, total: int, lastActivity: map<Ip, real>)

  const EMPTY_TABLES := Tables(map[], 0, map[])

  function ConnectionsOf(t: Tables, ip: Ip): int {
    if ip in t.connections then t.connections[ip] else 0
  }

  function TryAdd(l: Limits, t: Tables, ip: Ip, now: real): (Tables, bool) {
    if t.total >= l.maxTotal || ConnectionsOf(t, ip) >= l.maxPerIp then
      (t, false)
    else
      (Tables(t.connections[ip := ConnectionsOf(t, ip) + 1], t.total + 1, t.lastActivity[ip := now]), true)
  }

  function Remove(t: Tables, ip: Ip): Tables {
    var current := ConnectionsOf(t, ip);
    var lowered := if current > 0 then t.connections[ip := current - 1] else t.connections;
    Tables(
      if ip in lowered && lowered[ip] == 0 then lowered - {ip} else lowered,
      if current > 0 then Max0(t.total - 1) else t.total,
      t.lastActivity)
  }

  function Max0(x: int): int {
    if x > 0 then x else 0
  }

  function Touch(t: Tables, ip: Ip, now: real): Tables {
    t.(lastActivity := t.lastActivity[ip := now])
  }

  predicate IsIdle(l: Limits, t: Tables, ip: Ip, now: real) {
    ip in t.lastActivity ==> now - t.lastActivity[ip] > l.idleTimeout
  }

  // ---------------------------------------------------------------------
  // What every operation keeps, and what one undoes
  // ---------------------------------------------------------------------

  /** Sum of all per-IP counts. */
  ghost function Sum(m: map<Ip, int>): int
    decreases |m|
  {
    if m == map[] then 0 else
    var k :| k in m;
    m[k] + Sum(m - {k})
  }

  lemma {:induction false} SumSplit(m: map<Ip, int>, k: Ip)
    requires k in m
    ensures Sum(m) == m[k] + Sum(m - {k})
    decreases |m|
  {
    var j :| j in m && Sum(m) == m[j] + Sum(m - {j});
    if j != k {
      SumSplit(m - {j}, k);
      SumSplit(m - {k}, j);
      assert m - {j} - {k} == m - {k} - {j};
    }
  }

  lemma SumSet(m: map<Ip, int>, k: Ip, v: int)
    ensures Sum(m[k := v]) == Sum(m) + v - (if k in m then m[k] else 0)
  {
    SumSplit(m[k := v], k);
    assert m[k := v] - {k} == m - {k};
    if k in m {
      SumSplit(m, k);
    } else {
      assert m - {k} == m;
    }
  }

  /** An entry exists only while it is positive, and the total is the sum. */
  ghost predicate Consistent(t: Tables) {
    && (forall ip | ip in t.connections :: 0 < t.connections[ip])
    && t.total == Sum(t.connections)
  }

  lemma {:induction false} SumNonNegative(m: map<Ip, int>)
    requires forall ip | ip in m :: 0 < m[ip]
    ensures 0 <= Sum(m)
    ensures m != map[] ==> 0 < Sum(m)
    decreases |m|
  {
    if m != map[] {
      var k :| k in m && Sum(m) == m[k] + Sum(m - {k});
      SumNonNegative(m - {k});
    }
  }

  lemma TryAddKeepsConsistent(l: Limits, t: Tables, ip: Ip, now: real)
    requires Consistent(t)
    ensures Consistent(TryAdd(l, t, ip, now).0)
    ensures TryAdd(l, t, ip, now).1 ==>
              var t' := TryAdd(l, t, ip, now).0;
              t'.total <= l.maxTotal && ConnectionsOf(t', ip) <= l.maxPerIp
  {
    SumSet(t.connections, ip, ConnectionsOf(t, ip) + 1);
  }

  /** With an entry for the IP the clamp at zero never acts. */
  lemma RemoveKeepsConsistent(t: Tables, ip: Ip)
    requires Consistent(t)
    ensures Consistent(Remove(t, ip))
    ensures ip in t.connections ==> Remove(t, ip).total == t.total - 1
    ensures ConnectionsOf(Remove(t, ip), ip) == Max0(ConnectionsOf(t, ip) - 1)
    ensures forall other | other != ip :: ConnectionsOf(Remove(t, ip), other) == ConnectionsOf(t, other)
  {
    if ip in t.connections {
      SumNonNegative(t.connections);
      SumSet(t.connections, ip, t.connections[ip] - 1);
      var lowered := t.connections[ip := t.connections[ip] - 1];
      if lowered[ip] == 0 {
        SumSplit(lowered, ip);
      }
    }
  }

  /** Removing undoes an admission exactly, also when other connections come
      and go in between: both orders leave the same counts. */
  lemma RemoveUndoesTryAdd(l: Limits, t: Tables, ip: Ip, now: real)
    requires Consistent(t) && TryAdd(l, t, ip, now).1
    ensures var t' := Remove(TryAdd(l, t, ip, now).0, ip);
            t'.connections == t.connections && t'.total == t.total
  {
    SumNonNegative(t.connections);
    if ip !in t.connections {
      assert t.connections[ip := 0] - {ip} == t.connections;
    }
  }

  lemma RemovesCommute(t: Tables, ip: Ip, other: Ip)
    requires Consistent(t) && ip in t.connections && other in t.connections
    requires ip == other ==> 2 <= t.connections[ip]
    ensures Remove(Remove(t, ip), other) == Remove(Remove(t, other), ip)
  {
    RemoveKeepsConsistent(t, ip);
    RemoveKeepsConsistent(t, other);
    var a, b := Remove(Remove(t, ip), other), Remove(Remove(t, other), ip);
    assert a.connections == b.connections;
  }

  // ---------------------------------------------------------------------
  // The class
  // ---------------------------------------------------------------------

  class RateLimiter {
    const limits: Limits
    var buckets: map<Ip, TokenBucket>
    var connections: map<Ip, int>
    var total: int
    var lastActivity: map<Ip, real>

    /** Every IP has a bucket of its own with the configured parameters. */
    ghost predicate Valid()
      reads `buckets, buckets.Values
    {
      && (forall ip | ip in buckets :: buckets[ip].Valid() && buckets[ip].params == Params(limits.rps, limits.burst))
      && (forall ip, other | ip in buckets && other in buckets && ip != other :: buckets[ip] != buckets[other])
    }

    function Value(): Tables
      reads this
    {
      Tables(connections, total, lastActivity)
    }

    /** The history of grants for an IP; it starts with the first rate check. */
    ghost function History(ip: Ip): seq<Entry>
      reads this, buckets.Values
    {
      if ip in buckets then buckets[ip].log else []
    }

    constructor (l: Limits)
      ensures Valid() && limits == l
      ensures Value() == EMPTY_TABLES && buckets == map[]
    {
      limits := l;
      buckets := map[];
      connections := map[];
      total := 0;
      lastActivity := map[];
    }

    /** The lookup that check_rate does under the limiter's lock: the bucket of
        an IP is built on its first check and never replaced afterwards. */
    method LookupBucket(ip: Ip, now: real) returns (bucket: TokenBucket)
      requires Valid()
      modifies `buckets
      ensures Valid() && bucket.Valid() && bucket.params == Params(limits.rps, limits.burst)
      ensures ip in old(buckets) ==> bucket == old(buckets[ip])
      ensures ip !in old(buckets) ==>
                fresh(bucket) && bucket.log == [Entry(now, 0.0)] && bucket.tokens == limits.burst && bucket.last == now
      ensures buckets == old(buckets)[ip := bucket]
      ensures forall o: TokenBucket | o in old(buckets.Values) :: unchanged(o)
    {
      if ip !in buckets {
        var b := new TokenBucket(Params(limits.rps, limits.burst), now);
        buckets := buckets[ip := b];
      }
      bucket := buckets[ip];
    }

    /** The verdict is the sliding-window rule over the IP's whole history of
        grants, whatever connections it has opened and closed meanwhile; no
        other IP's history and no table changes. */
    method CheckRate(ip: Ip, lookup: real, now: real) returns (allowed: bool)
      requires Valid()
      modifies `buckets, buckets.Values
      ensures Valid()
      ensures Value() == old(Value())
      ensures var before := if ip in old(buckets) then old(History(ip)) else [Entry(lookup, 0.0)];
              && (allowed <==> Admits(Params(limits.rps, limits.burst), before, now, 1.0))
              && History(ip) == before + [Entry(now, if allowed then 1.0 else 0.0)]
      ensures forall other | other != ip :: History(other) == old(History(other))
      ensures fresh(buckets.Values - old(buckets.Values))
    {
      hide Tracks, Admits, Take;
      var bucket := LookupBucket(ip, lookup);
      allowed := bucket.Consume(now, 1.0);
    }

    method TryAddConnection(ip: Ip, now: real) returns (ok: bool)
      modifies `connections, `total, `lastActivity
      ensures (Value(), ok) == TryAdd(limits, old(Value()), ip, now)
      ensures ok <==> old(total) < limits.maxTotal && (if ip in old(connections) then old(connections[ip]) else 0) < limits.maxPerIp
    {
      if total >= limits.maxTotal {
        return false;
      }
      var current := ConnectionsOf(Value(), ip);
      if current >= limits.maxPerIp {
        return false;
      }
      connections := connections[ip := current + 1];
      total := total + 1;
      lastActivity := lastActivity[ip := now];
      return true;
    }

    method RemoveConnection(ip: Ip)
      modifies `connections, `total
      ensures Value() == Remove(old(Value()), ip)
    {
      var current := ConnectionsOf(Value(), ip);
      if current > 0 {
        connections := connections[ip := current - 1];
        total := Max0(total - 1);
      }
      if ip in connections && connections[ip] == 0 {
        connections := connections - {ip};
      }
    }

    method TouchIp(ip: Ip, now: real)
      modifies `lastActivity
      ensures Value() == Touch(old(Value()), ip, now)
      ensures lastActivity == old(lastActivity)[ip := now] && connections == old(connections) && total == old(total)
    {
      lastActivity := lastActivity[ip := now];
    }

    method CheckIdle(ip: Ip, now: real) returns (idle: bool)
      ensures idle <==> IsIdle(limits, Value(), ip, now)
      ensures idle <==> (ip in lastActivity ==> now - lastActivity[ip] > limits.idleTimeout)
    {
      if ip !in lastActivity {
        return true;
      }
      return now - lastActivity[ip] > limits.idleTimeout;
    }
  }
}
