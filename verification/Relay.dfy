/**
 CONNECT tunnelling of server/forwarder.py: bytes relayed from a target over
 any sequence of CONNECT and RELAY requests, one handler at a time per target.
 */
module Relay {
  import opened Bytes

  type Target = string

  const CHUNK := 65536

  /** What the target's socket runs into next: data, its close, a timeout, or an
      error. Afterwards reads time out. */
  datatype Arrival = Data(bytes: Bytes) | Eof | Quiet | Broken

  /** A socket to a target; `taken` is all that recv has returned from it. */
  datatype Sock = Sock(target: Target, arrivals: seq<Arrival>, taken: Bytes)

  /** The outcome of one recv(65536). */
  datatype Received = Chunk(bytes: Bytes) | End | TimedOut | Raised

  function Recv(s: Sock): (Sock, Received) {
    if s.arrivals == [] then (s, TimedOut) else
    var rest := s.arrivals[1..];
    match s.arrivals[0]
    case Data(b) =>
      if b == [] then (s.(arrivals := rest), End)
      else if |b| <= CHUNK then (s.(arrivals := rest, taken := s.taken + b), Chunk(b))
      else (s.(arrivals := [Data(b[CHUNK..])] + rest, taken := s.taken + b[..CHUNK]), Chunk(b[..CHUNK]))
    case Eof => (s.(arrivals := rest), End)
    case Quiet => (s.(arrivals := rest), TimedOut)
    case Broken => (s.(arrivals := rest), Raised)
  }

  /** All bytes the target sends on a socket, read or not. */
  function BytesOf(arrivals: seq<Arrival>): Bytes {
    if arrivals == [] then [] else
    (if arrivals[0].Data? then arrivals[0].bytes else []) + BytesOf(arrivals[1..])
  }

  function Size(arrivals: seq<Arrival>): nat {
    |BytesOf(arrivals)| + |arrivals|
  }

  /** A read moves bytes from what is to come to what was taken, and only that. */
  lemma RecvMoves(s: Sock)
    ensures var (s', r) := Recv(s);
            && s'.target == s.target
            && s'.taken + BytesOf(s'.arrivals) == s.taken + BytesOf(s.arrivals)
            && s'.taken == s.taken + (if r.Chunk? then r.bytes else [])
            && (s.arrivals != [] ==> Size(s'.arrivals) < Size(s.arrivals))
            && (r.Chunk? ==> s.arrivals != [] && 0 < |r.bytes| <= CHUNK)
  {
    if s.arrivals != [] {
      var rest := s.arrivals[1..];
      assert BytesOf(s.arrivals) == (if s.arrivals[0].Data? then s.arrivals[0].bytes else []) + BytesOf(rest);
      if s.arrivals[0].Data? && |s.arrivals[0].bytes| > CHUNK {
        SplitArrival(s.taken, s.arrivals[0].bytes, rest);
      }
    }
  }

  lemma SplitArrival(taken: Bytes, b: Bytes, rest: seq<Arrival>)
    requires |b| > CHUNK
    ensures BytesOf([Data(b[CHUNK..])] + rest) == b[CHUNK..] + BytesOf(rest)
    ensures taken + b[..CHUNK] + (b[CHUNK..] + BytesOf(rest)) == taken + (b + BytesOf(rest))
  {
    assert ([Data(b[CHUNK..])] + rest)[1..] == rest;
    assert b[..CHUNK] + b[CHUNK..] == b;
  }

  datatype Reading = Reading(sock: Sock, body: Bytes, closed: bool)

  /** The read loop of _handle_relay: it ends at the target's close, at a
      timeout or error, or after a chunk that is not full. */
  function ReadLoop(s: Sock): Reading
    decreases Size(s.arrivals)
  {
    RecvMoves(s);
    var (s', r) := Recv(s);
    match r
    case End => Reading(s', [], true)
    case TimedOut => Reading(s', [], false)
    case Raised => Reading(s', [], false)
    case Chunk(b) =>
      if |b| < CHUNK then Reading(s', b, false)
      else
        var more := ReadLoop(s');
        more.(body := b + more.body)
  }

  /** What the loop returns is exactly what it has read, and the next bytes of
      the target's stream. */
  lemma {:induction false} ReadLoopConserves(s: Sock)
    ensures var r := ReadLoop(s);
            && r.sock.target == s.target
            && r.sock.taken == s.taken + r.body
            && r.sock.taken + BytesOf(r.sock.arrivals) == s.taken + BytesOf(s.arrivals)
    decreases Size(s.arrivals)
  {
    RecvMoves(s);
    var (s', r) := Recv(s);
    if r.Chunk? && |r.bytes| == CHUNK {
      ReadLoopConserves(s');
    }
  }

  /** How many arrivals the loop reads through: data that comes in full chunks
      only, so that each read asks for more. */
  function FullOnes(arrivals: seq<Arrival>): (k: nat)
    ensures k <= |arrivals|
  {
    if arrivals != [] && arrivals[0].Data? && arrivals[0].bytes != [] && |arrivals[0].bytes| % 65536 == 0 then
      1 + FullOnes(arrivals[1..])
    else 0
  }

  /** What one call reads, told from what the target does: all data up to and
      with the first that is not made of full chunks, or up to the target's
      close, a timeout or an error. It reports the close exactly if that came
      first; `left` stays for the next call. */
  ghost predicate Reads(arrivals: seq<Arrival>, body: Bytes, closed: bool, left: seq<Arrival>) {
    var k := FullOnes(arrivals);
    if k == |arrivals| then
      body == BytesOf(arrivals) && !closed && left == []
    else
      && (closed <==> arrivals[k] == Eof || arrivals[k] == Data([]))
      && body == BytesOf(arrivals[..k]) + (if arrivals[k].Data? then arrivals[k].bytes else [])
      && left == arrivals[k + 1..]
  }

  /** The read loop reads exactly that, however the data splits into chunks. */
  lemma {:induction false} ReadLoopReads(s: Sock)
    ensures var r := ReadLoop(s); Reads(s.arrivals, r.body, r.closed, r.sock.arrivals)
    decreases Size(s.arrivals)
  {
    hide Reads;
    RecvMoves(s);
    var (s', r) := Recv(s);
    if r.Chunk? && |r.bytes| == CHUNK {
      ReadLoopReads(s');
      var more := ReadLoop(s');
      var b, rest := s.arrivals[0].bytes, s.arrivals[1..];
      if |b| == CHUNK {
        ReadsFull(s.arrivals, more.body, more.closed, more.sock.arrivals);
      } else {
        assert s.arrivals == [Data(b)] + rest;
        ReadsSplit(b, rest, more.body, more.closed, more.sock.arrivals);
      }
    } else {
      ReadsLast(s);
    }
  }

  lemma ReadsLast(s: Sock)
    requires var r := Recv(s).1; r.Chunk? ==> |r.bytes| < CHUNK
    ensures var r := ReadLoop(s); Reads(s.arrivals, r.body, r.closed, r.sock.arrivals)
  {
    assert FullOnes(s.arrivals) == 0;
    assert s.arrivals[..0] == [];
  }

  lemma ReadsFull(arrivals: seq<Arrival>, body: Bytes, closed: bool, left: seq<Arrival>)
    requires arrivals != [] && arrivals[0].Data? && |arrivals[0].bytes| == CHUNK
    requires Reads(arrivals[1..], body, closed, left)
    ensures Reads(arrivals, arrivals[0].bytes + body, closed, left)
  {
    var k := FullOnes(arrivals);
    assert k == 1 + FullOnes(arrivals[1..]);
    FullThenMore(arrivals, k);
    assert arrivals[..|arrivals|] == arrivals && arrivals[1..][..|arrivals| - 1] == arrivals[1..];
  }

  lemma ReadsSplit(b: Bytes, rest: seq<Arrival>, body: Bytes, closed: bool, left: seq<Arrival>)
    requires |b| > CHUNK && Reads([Data(b[CHUNK..])] + rest, body, closed, left)
    ensures Reads([Data(b)] + rest, b[..CHUNK] + body, closed, left)
  {
    var whole, part := [Data(b)] + rest, [Data(b[CHUNK..])] + rest;
    var k := FullOnes(whole);
    SplitFull(b, rest, k);
    assert whole[..|whole|] == whole && part[..|part|] == part;
    assert whole[1..] == rest == part[1..];
    if 0 == k {
      assert whole[..0] == [] && part[..0] == [];
    }
  }

  lemma FullThenMore(arrivals: seq<Arrival>, k: nat)
    requires arrivals != [] && arrivals[0].Data? && 0 < k <= |arrivals|
    ensures BytesOf(arrivals[..k]) == arrivals[0].bytes + BytesOf(arrivals[1..][..k - 1])
  {
    assert arrivals[..k][1..] == arrivals[1..][..k - 1];
  }

  /** Reading one full chunk of a longer piece of data leaves the rest of it to read. */
  lemma SplitFull(b: Bytes, rest: seq<Arrival>, k: nat)
    requires |b| > CHUNK && k == FullOnes([Data(b)] + rest)
    ensures FullOnes([Data(b[CHUNK..])] + rest) == k
    ensures 0 < k ==> BytesOf(([Data(b)] + rest)[..k]) == b[..CHUNK] + BytesOf(([Data(b[CHUNK..])] + rest)[..k])
    ensures b == b[..CHUNK] + b[CHUNK..]
  {
    var whole, part := [Data(b)] + rest, [Data(b[CHUNK..])] + rest;
    assert whole[1..] == rest == part[1..];
    assert |b[CHUNK..]| == |b| - CHUNK && |b| % 65536 == (|b| - CHUNK) % 65536;
    if 0 < k {
      FullThenMore(whole, k);
      FullThenMore(part, k);
    }
  }

  // ---------------------------------------------------------------------
  // Requests
  // ---------------------------------------------------------------------

  datatype Response = Response(status: int, body: Bytes, closed: bool)

  /** All sockets ever opened, in order, and the session map. */
  datatype Forwarder = Forwarder(socks: seq<Sock>, sessions: map<Target, nat>)

  const EMPTY := Forwarder([], map[])

  /** `page` is the body of an error response, `works` the fate of connect or sendall. */
  datatype Op =
    | Connect(target: Target, works: bool, arrivals: seq<Arrival>, page: Bytes)
    | RelayData(target: Target, data: Bytes, works: bool, page: Bytes)

  function Step(f: Forwarder, op: Op): (Forwarder, Response) {
    match op
    case Connect(t, works, arrivals, page) =>
      if works then
        (Forwarder(f.socks + [Sock(t, arrivals, [])], f.sessions[t := |f.socks|]), Response(200, [], false))
      else
        (f, Response(502, page, false))
    case RelayData(t, data, works, page) =>
      if t !in f.sessions || f.sessions[t] >= |f.socks| then (f, Response(502, page, false))
      else if data != [] && !works then (f.(sessions := f.sessions - {t}), Response(502, page, false))
      else
        var r := ReadLoop(f.socks[f.sessions[t]]);
        (Forwarder(f.socks[f.sessions[t] := r.sock], if r.closed then f.sessions - {t} else f.sessions),
         Response(200, r.body, r.closed))
  }

  function Run(ops: seq<Op>): (Forwarder, seq<Response>) {
    if ops == [] then (EMPTY, []) else
    var (f, rs) := Run(ops[..|ops| - 1]);
    var (f', r) := Step(f, ops[|ops| - 1]);
    (f', rs + [r])
  }

  /** The bodies of the successful relays for a target, concatenated. */
  function Bodies(ops: seq<Op>, rs: seq<Response>, t: Target): Bytes
    requires |ops| == |rs|
  {
    if ops == [] then [] else
    var op, r := ops[|ops| - 1], rs[|ops| - 1];
    Bodies(ops[..|ops| - 1], rs[..|ops| - 1], t)
      + if op.RelayData? && op.target == t && r.status == 200 then r.body else []
  }

  /** All bytes ever received from a target, socket after socket. */
  function TakenFrom(socks: seq<Sock>, t: Target): Bytes {
    if socks == [] then [] else
    var s := socks[|socks| - 1];
    TakenFrom(socks[..|socks| - 1], t) + if s.target == t then s.taken else []
  }

  /** A session is the newest socket of its target. */
  ghost predicate Newest(f: Forwarder) {
    forall t | t in f.sessions ::
      && f.sessions[t] < |f.socks| && f.socks[f.sessions[t]].target == t
      && (forall k | f.sessions[t] < k < |f.socks| :: f.socks[k].target != t)
  }

  lemma {:induction false} TakenNone(socks: seq<Sock>, t: Target)
    requires forall k | 0 <= k < |socks| :: socks[k].target != t
    ensures TakenFrom(socks, t) == []
  {
    if socks != [] {
      TakenNone(socks[..|socks| - 1], t);
    }
  }

  /** Bytes read from the newest socket of a target come last. */
  lemma {:induction false} TakenGrows(socks: seq<Sock>, i: nat, s: Sock, body: Bytes, t: Target)
    requires i < |socks| && s.target == socks[i].target && s.taken == socks[i].taken + body
    requires forall k | i < k < |socks| :: socks[k].target != s.target
    ensures TakenFrom(socks[i := s], t) == TakenFrom(socks, t) + if t == s.target then body else []
  {
    var last := |socks| - 1;
    var after := socks[i := s];
    if i == last {
      assert after[..last] == socks[..last];
    } else {
      TakenGrows(socks[..last], i, s, body, t);
      assert after[..last] == socks[..last][i := s];
    }
  }

  lemma StepKeepsNewest(f: Forwarder, op: Op)
    requires Newest(f)
    ensures Newest(Step(f, op).0)
  {
    hide ReadLoop;
    if op.RelayData? && op.target in f.sessions {
      ReadLoopConserves(f.socks[f.sessions[op.target]]);
    }
  }

  /** One request: the bytes taken from each target grow by the response body of
      a successful relay, and by nothing else. */
  lemma StepConserves(f: Forwarder, op: Op, t: Target)
    requires Newest(f)
    ensures var (f', r) := Step(f, op);
            TakenFrom(f'.socks, t) == TakenFrom(f.socks, t)
              + if op.RelayData? && op.target == t && r.status == 200 then r.body else []
  {
    hide ReadLoop;
    match op {
      case Connect(u, works, arrivals, _) =>
        if works {
          assert (f.socks + [Sock(u, arrivals, [])])[..|f.socks|] == f.socks;
        }
      case RelayData(u, data, works, _) =>
        if u in f.sessions && (data == [] || works) {
          var i := f.sessions[u];
          ReadLoopConserves(f.socks[i]);
          TakenGrows(f.socks, i, ReadLoop(f.socks[i]).sock, ReadLoop(f.socks[i]).body, t);
        }
    }
  }

  /** Byte conservation: over any sequence of requests and any behaviour of the
      targets, the bodies of the successful relays for a target are exactly the
      bytes received from it, in order and without loss. */
  lemma {:induction false} RelayConserves(ops: seq<Op>, t: Target)
    ensures var (f, rs) := Run(ops);
            |rs| == |ops| && Newest(f) && Bodies(ops, rs, t) == TakenFrom(f.socks, t)
  {
    hide Step;
    if ops != [] {
      var front := ops[..|ops| - 1];
      RelayConserves(front, t);
      var (f, rs) := Run(front);
      StepKeepsNewest(f, ops[|ops| - 1]);
      StepConserves(f, ops[|ops| - 1], t);
      assert (rs + [Step(f, ops[|ops| - 1]).1])[..|front|] == rs;
    }
  }

  /** On every socket the bytes taken are a prefix of the bytes the target sends. */
  lemma StepTakesInOrder(f: Forwarder, op: Op, k: nat)
    requires k < |f.socks|
    ensures var f' := Step(f, op).0;
            && k < |f'.socks|
            && f.socks[k].taken <= f'.socks[k].taken
            && f'.socks[k].taken + BytesOf(f'.socks[k].arrivals) == f.socks[k].taken + BytesOf(f.socks[k].arrivals)
  {
    hide ReadLoop;
    if op.RelayData? && op.target in f.sessions && f.sessions[op.target] < |f.socks| {
      ReadLoopConserves(f.socks[f.sessions[op.target]]);
    }
  }

  /** A session ends exactly at the target's close or a failed send, and no
      other session is touched. */
  lemma SessionEnds(f: Forwarder, op: Op)
    requires Newest(f) && op.RelayData?
    ensures var (f', r) := Step(f, op);
            && (forall t | t != op.target :: t in f'.sessions <==> t in f.sessions)
            && (op.target in f.sessions ==>
                  (op.target !in f'.sessions <==> (r.status == 200 && r.closed) || (op.data != [] && !op.works)))
            && (op.target !in f.sessions ==> r.status == 502 && f' == f)
  {
    hide ReadLoop;
  }

  // ---------------------------------------------------------------------
  // The code
  // ---------------------------------------------------------------------

  class TargetSocket {
    const target: Target
    var arrivals: seq<Arrival>
    var taken: Bytes

    function Value(): Sock
      reads this
    {
      Sock(target, arrivals, taken)
    }

    constructor (target: Target, arrivals: seq<Arrival>)
      ensures Value() == Sock(target, arrivals, [])
    {
      this.target, this.arrivals, taken := target, arrivals, [];
    }

    method RecvChunk() returns (r: Received)
      modifies this
      ensures (Value(), r) == Recv(old(Value()))
    {
      if arrivals == [] {
        return TimedOut;
      }
      match arrivals[0] {
        case Data(b) =>
          if b == [] {
            r, arrivals := End, arrivals[1..];
          } else if |b| <= CHUNK {
            r, arrivals, taken := Chunk(b), arrivals[1..], taken + b;
          } else {
            r, taken := Chunk(b[..CHUNK]), taken + b[..CHUNK];
            arrivals := [Data(b[CHUNK..])] + arrivals[1..];
          }
        case Eof =>
          r, arrivals := End, arrivals[1..];
        case Quiet =>
          r, arrivals := TimedOut, arrivals[1..];
        case Broken =>
          r, arrivals := Raised, arrivals[1..];
      }
    }

    /** The loop as it is written: chunks pile up until one is short, the stream
        ends, or a read fails. */
    method ReadAll() returns (body: Bytes, closed: bool)
      modifies this
      ensures Reading(Value(), body, closed) == ReadLoop(old(Value()))
    {
      hide Recv, BytesOf;
      body, closed := [], false;
      ghost var rest := ReadLoop(Value());
      while true
        invariant !closed && ReadLoop(old(Value())) == rest.(body := body + rest.body)
        invariant rest == ReadLoop(Value())
        decreases Size(arrivals)
      {
        RecvMoves(Value());
        var r := RecvChunk();
        if r.TimedOut? || r.Raised? {
          break;
        }
        if r.End? {
          closed := true;
          break;
        }
        body := body + r.bytes;
        if |r.bytes| < CHUNK {
          break;
        }
        rest := ReadLoop(Value());
      }
    }
  }

  ghost function Values(ss: seq<TargetSocket>): (r: seq<Sock>)
    reads ss
    ensures |r| == |ss| && forall i | 0 <= i < |ss| :: r[i] == ss[i].Value()
  {
    seq(|ss|, i requires 0 <= i < |ss| reads ss => ss[i].Value())
  }

  /** A relay without session, and one whose send fails, as steps. */
  lemma StepRefuses(f: Forwarder, t: Target, data: Bytes, works: bool, page: Bytes)
    requires t !in f.sessions || (f.sessions[t] < |f.socks| && data != [] && !works)
    ensures Step(f, RelayData(t, data, works, page)) == (Forwarder(f.socks, f.sessions - {t}), Response(502, page, false))
  {
    assert t !in f.sessions ==> f.sessions - {t} == f.sessions;
  }

  /** A relay that reads, as a step. */
  lemma StepReads(f: Forwarder, t: Target, data: Bytes, works: bool, page: Bytes, r: Reading)
    requires t in f.sessions && f.sessions[t] < |f.socks| && (data == [] || works)
    requires r == ReadLoop(f.socks[f.sessions[t]])
    ensures Step(f, RelayData(t, data, works, page)) ==
              (Forwarder(f.socks[f.sessions[t] := r.sock], if r.closed then f.sessions - {t} else f.sessions),
               Response(200, r.body, r.closed))
  {
    hide ReadLoop;
  }

  /** The session map `_connect_sessions` and the two handlers that use it. The
      ghost fields keep every socket ever opened, and where each session's is. */
  class Sessions {
    var sockets: map<Target, TargetSocket>
    ghost var all: seq<TargetSocket>
    ghost var index: map<Target, nat>

    ghost predicate Valid()
      reads this
    {
      && (forall i, j | 0 <= i < j < |all| :: all[i] != all[j])
      && index.Keys == sockets.Keys
      && (forall t | t in sockets :: index[t] < |all| && all[index[t]] == sockets[t])
    }

    ghost function Value(): (f: Forwarder)
      reads this, all
    {
      Forwarder(Values(all), index)
    }

    constructor ()
      ensures Valid() && sockets == map[] && all == [] && Value() == EMPTY
    {
      sockets, all, index := map[], [], map[];
    }

    /** _handle_connect, after the port is parsed. */
    method HandleConnect(target: Target, works: bool, arrivals: seq<Arrival>, page: Bytes) returns (r: Response)
      requires Valid()
      modifies this
      ensures Valid() && (Value(), r) == Step(old(Value()), Connect(target, works, arrivals, page))
      ensures works ==>
                && r == Response(200, [], false)
                && target in sockets && fresh(sockets[target]) && sockets == old(sockets)[target := sockets[target]]
                && sockets[target].Value() == Sock(target, arrivals, [])
                && all == old(all) + [sockets[target]]
      ensures !works ==> r == Response(502, page, false) && sockets == old(sockets) && all == old(all)
    {
      if !works {
        return Response(502, page, false);
      }
      var s := new TargetSocket(target, arrivals);
      sockets := sockets[target := s];
      all, index := all + [s], index[target := |all|];
      assert Values(all) == old(Values(all)) + [Sock(target, arrivals, [])];
      return Response(200, [], false);
    }

    /** `_connect_sessions.pop(target, None)`. */
    method Pop(target: Target)
      requires Valid()
      modifies `sockets, `index
      ensures Valid() && sockets == old(sockets) - {target}
      ensures index == old(index) - {target} && Values(all) == old(Values(all))
    {
      sockets := sockets - {target};
      index := index - {target};
    }

    /** The read loop on the target's socket; no other socket changes. */
    method ReadSession(target: Target) returns (body: Bytes, closed: bool)
      requires Valid() && target in sockets
      modifies all
      ensures var before := old(Values(all));
              var r := ReadLoop(before[index[target]]);
              body == r.body && closed == r.closed && Values(all) == before[index[target] := r.sock]
      ensures Reads(old(sockets[target].arrivals), body, closed, sockets[target].arrivals)
      ensures sockets[target].taken == old(sockets[target].taken) + body
    {
      hide Reads, ReadLoop;
      var s := sockets[target];
      ghost var before, i := Values(all), index[target];
      ReadLoopConserves(s.Value());
      ReadLoopReads(s.Value());
      body, closed := s.ReadAll();
      assert forall k | 0 <= k < |all| && k != i :: all[k] != s;
      assert Values(all) == before[i := s.Value()];
    }

    /** _handle_relay: a successful response carries exactly the bytes this call
        took from the target's socket; a failed one took none; the session
        goes away at the target's close and after a failed send. */
    method HandleRelay(target: Target, data: Bytes, works: bool, page: Bytes) returns (r: Response)
      requires Valid()
      modifies this, all
      ensures Valid() && all == old(all)
      ensures (Value(), r) == Step(old(Value()), RelayData(target, data, works, page))
      ensures target !in old(sockets) ==> r == Response(502, page, false) && sockets == old(sockets)
      ensures target in old(sockets) && data != [] && !works ==>
                && r == Response(502, page, false) && sockets == old(sockets) - {target}
      ensures target in old(sockets) && (data == [] || works) ==>
                && r.status == 200
                && Reads(old(sockets[target].arrivals), r.body, r.closed, old(sockets[target]).arrivals)
                && old(sockets[target]).taken == old(sockets[target].taken) + r.body
                && sockets == if r.closed then old(sockets) - {target} else old(sockets)
    {
      hide Reads, ReadLoop, Step, Values;
      ghost var before := Value();
      if target !in sockets {
        StepRefuses(before, target, data, works, page);
        assert before.sessions - {target} == before.sessions;
        return Response(502, page, false);
      }
      if data != [] && !works {
        StepRefuses(before, target, data, works, page);
        Pop(target);
        return Response(502, page, false);
      }
      var body, closed := ReadSession(target);
      StepReads(before, target, data, works, page, ReadLoop(before.socks[index[target]]));
      if closed {
        Pop(target);
      }
      return Response(200, body, closed);
    }
  }

  lemma RunStep(ops: seq<Op>, n: nat)
    requires n < |ops|
    ensures var (f, rs) := Run(ops[..n]);
            Run(ops[..n + 1]) == (Step(f, ops[n]).0, rs + [Step(f, ops[n]).1])
  {
    hide Step;
    assert ops[..n + 1][..n] == ops[..n];
  }

  /** Any sequence of requests to the handlers: for each target, the bodies of
      its successful relays are exactly the bytes received from it, in order
      and without loss. */
  method HandleAll(ops: seq<Op>) returns (s: Sessions, rs: seq<Response>)
    ensures s.Valid() && (s.Value(), rs) == Run(ops)
    ensures |rs| == |ops|
    ensures forall t :: Bodies(ops, rs, t) == TakenFrom(s.Value().socks, t)
  {
    hide Step, Bodies, TakenFrom, Run, Values;
    s := new Sessions();
    rs := [];
    assert ops[..0] == [];
    NothingRun();
    for n := 0 to |ops|
      invariant s.Valid() && fresh(s) && fresh(s.all)
      invariant |rs| == n && (s.Value(), rs) == Run(ops[..n])
    {
      RunStep(ops, n);
      var r := Response(0, [], false);
      match ops[n] {
        case Connect(target, works, arrivals, page) => r := s.HandleConnect(target, works, arrivals, page);
        case RelayData(target, data, works, page) => r := s.HandleRelay(target, data, works, page);
      }
      rs := rs + [r];
    }
    assert ops[..|ops|] == ops;
    forall t
      ensures |rs| == |ops| && Bodies(ops, rs, t) == TakenFrom(s.Value().socks, t)
    {
      RelayConserves(ops, t);
    }
  }

  lemma NothingRun()
    ensures Run([]) == (EMPTY, [])
  {
  }
}
