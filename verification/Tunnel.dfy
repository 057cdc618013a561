/**
 The reconnecting client of client/tunnel_client.py, used by one caller, over
 a network on which every step may fail and a server that answers in order
 and at most once.
 */
module Tunnel {
  import opened Bytes
  import opened Framing

  /** A DATA_REQUEST frame that reached the server; `call` says which call of
      send_request wrote it. */
  datatype Request = Request(call: nat, data: Bytes)

  /** A frame of the server that the client has read; it answers request `index`. */
  datatype Answer = Answer(index: nat, typ: MessageType, body: Bytes)

  /** One TCP connection after its handshake. */
  datatype Conn = Conn(requests: seq<Request>, answers: seq<Answer>)
  {
    /** The server answers requests it has, in order, each at most once. */
    ghost predicate Fifo() {
      && (forall i | 0 <= i < |answers| :: answers[i].index < |requests|)
      && (forall i, j | 0 <= i < j < |answers| :: answers[i].index < answers[j].index)
    }

    predicate CanAnswer(index: nat) {
      index < |requests| && (answers == [] || answers[|answers| - 1].index < index)
    }

    ghost predicate NoneOpen() {
      |answers| == |requests|
    }
  }

  /** A FIFO server cannot have answered more than it was asked. */
  lemma {:induction false} AnswersLag(c: Conn, k: nat)
    requires c.Fifo() && k < |c.answers|
    ensures k <= c.answers[k].index
    ensures |c.answers| <= |c.requests|
    decreases k
  {
    if k > 0 {
      AnswersLag(c, k - 1);
    }
    if k < |c.answers| - 1 {
      AnswerAbove(c, k, |c.answers| - 1);
    }
  }

  lemma {:induction false} AnswerAbove(c: Conn, j: nat, k: nat)
    requires c.Fifo() && j <= k < |c.answers|
    ensures k - j <= c.answers[k].index - c.answers[j].index
    decreases k
  {
    if j < k {
      AnswerAbove(c, j, k - 1);
    }
  }

  /** When nothing was open before the last request, an answer now is the
      answer to that request. */
  lemma NextAnswerIsLast(c: Conn, index: nat)
    requires c.Fifo() && |c.answers| + 1 == |c.requests| && c.CanAnswer(index)
    ensures index == |c.requests| - 1
    ensures Conn(c.requests, c.answers + [Answer(index, Error, [])]).Fifo()
  {
    if c.answers != [] {
      AnswersLag(c, |c.answers| - 1);
    }
  }

  /** What the environment makes of the next call on the network. */
  datatype Fate =
    | Works
    | Breaks                                      // it raises and has no effect
    | BreaksLate                                  // it raises after it took effect
    | Delivers(index: nat, typ: MessageType, body: Bytes)

  /** The next call's fate, and the script after it; at its end every call breaks. */
  function Head(script: seq<Fate>): Fate {
    if script == [] then Breaks else script[0]
  }

  function Tail(script: seq<Fate>): seq<Fate> {
    if script == [] then [] else script[1..]
  }

  /** All connections ever made, and what the client has done so far. */
  class Network {
    var conns: seq<Conn>
    var script: seq<Fate>
    var connects: nat
    var frames: nat
    var slept: real

    constructor (script: seq<Fate>)
      ensures conns == [] && connects == 0 && frames == 0 && slept == 0.0 && this.script == script
    {
      conns, this.script, connects, frames, slept := [], script, 0, 0, 0.0;
    }

    method NextFate() returns (f: Fate)
      modifies `script
      ensures f == Head(old(script)) && script == Tail(old(script))
    {
      f := Breaks;
      if script != [] {
        f, script := script[0], script[1..];
      }
    }

    /** TCP connect and client_handshake. */
    method Open() returns (conn: Option<nat>)
      modifies `script, `connects, `conns
      ensures connects == old(connects) + 1 && script == Tail(old(script))
      ensures conn.Some? <==> Head(old(script)).Works?
      ensures conn.Some? ==> conn.value == |old(conns)| && conns == old(conns) + [Conn([], [])]
      ensures conn.None? ==> conns == old(conns)
    {
      var f := NextFate();
      connects := connects + 1;
      if f.Works? {
        conn := Some(|conns|);
        conns := conns + [Conn([], [])];
      } else {
        conn := None;
      }
    }

    /** send_frame of a DATA_REQUEST. */
    method Send(conn: nat, r: Request) returns (ok: bool)
      requires conn < |conns|
      modifies `script, `frames, `conns
      ensures frames == old(frames) + 1 && script == Tail(old(script))
      ensures ok <==> Head(old(script)).Works?
      ensures conns == if ok || Head(old(script)).BreaksLate? then Asked(old(conns), conn, r) else old(conns)
    {
      var f := NextFate();
      frames := frames + 1;
      ok := f.Works?;
      if f.Works? || f.BreaksLate? {
        conns := Asked(conns, conn, r);
      }
    }

    /** recv_frame: an answer the server can give, or an exception. */
    method Recv(conn: nat) returns (a: Option<Answer>)
      requires conn < |conns|
      modifies `script, `conns
      ensures script == Tail(old(script))
      ensures var f := Head(old(script));
              if f.Delivers? && old(conns)[conn].CanAnswer(f.index) then
                a == Some(Answer(f.index, f.typ, f.body)) && conns == Told(old(conns), conn, a.value)
              else
                a == None && conns == old(conns)
    {
      var f := NextFate();
      if f.Delivers? && conns[conn].CanAnswer(f.index) {
        var answer := Answer(f.index, f.typ, f.body);
        a := Some(answer);
        conns := Told(conns, conn, answer);
      } else {
        a := None;
      }
    }

    /** time.sleep, which refuses negative durations. */
    method Sleep(seconds: real) returns (ok: bool)
      modifies `slept
      ensures ok <==> 0.0 <= seconds
      ensures slept == if ok then old(slept) + seconds else old(slept)
    {
      ok := 0.0 <= seconds;
      if ok {
        slept := slept + seconds;
      }
    }
  }

  /** On every connection the server is FIFO, and the requests carry the tags
      of calls made so far. */
  ghost predicate InOrder(conns: seq<Conn>, calls: nat) {
    && (forall k | 0 <= k < |conns| :: conns[k].Fifo())
    && (forall k, i | 0 <= k < |conns| && 0 <= i < |conns[k].requests| :: conns[k].requests[i].call < calls)
  }

  /** Connection k with one more request, or with one more answer. */
  function Asked(conns: seq<Conn>, k: nat, r: Request): seq<Conn>
    requires k < |conns|
  {
    conns[k := conns[k].(requests := conns[k].requests + [r])]
  }

  function Told(conns: seq<Conn>, k: nat, a: Answer): seq<Conn>
    requires k < |conns|
  {
    conns[k := conns[k].(answers := conns[k].answers + [a])]
  }

  /** Connections are only added, and only grow. */
  ghost predicate Grown(from: seq<Conn>, to: seq<Conn>) {
    && |from| <= |to|
    && forall k | 0 <= k < |from| :: from[k].requests <= to[k].requests && from[k].answers <= to[k].answers
  }

  /** `v` is the body of a DATA_RESPONSE by which the server answered a frame
      that carried `data` and was written by call `call`. */
  ghost predicate Answered(conns: seq<Conn>, call: nat, data: Bytes, v: Bytes) {
    exists k, i :: AnsweredAt(conns, k, i, call, data, v)
  }

  ghost predicate AnsweredAt(conns: seq<Conn>, k: nat, i: nat, call: nat, data: Bytes, v: Bytes) {
    && k < |conns| && i < |conns[k].answers|
    && conns[k].answers[i].typ == DataResponse && conns[k].answers[i].body == v
    && conns[k].answers[i].index < |conns[k].requests|
    && conns[k].requests[conns[k].answers[i].index] == Request(call, data)
  }

  lemma StaysAnswered(from: seq<Conn>, to: seq<Conn>, call: nat, data: Bytes, v: Bytes)
    requires Grown(from, to) && Answered(from, call, data, v)
    ensures Answered(to, call, data, v)
  {
    var k, i :| AnsweredAt(from, k, i, call, data, v);
    assert AnsweredAt(to, k, i, call, data, v);
  }

  /** How a call of send_request fails: the retries are used up, or the backoff
      is negative. */
  datatype CallError = Exhausted | BadSleep

  /** The sleep after attempts 1, ..., n-1: backoff * n * (n-1) / 2. */
  function SleepBefore(backoff: real, n: nat): real {
    backoff * n as real * (n as real - 1.0) / 2.0
  }

  // ---------------------------------------------------------------------
  // What a script of fates makes of a call
  // ---------------------------------------------------------------------

  /** What came of one attempt, or of several: the value if any, the script and
      the connection after it, and what was used. A connection counts by its
      number of answered requests. */
  datatype Tally = Tally(value: Option<Bytes>, rest: seq<Fate>, live: Option<nat>, attempts: nat, frames: nat, connects: nat)

  /** Send a request and read a frame, on a connection with n answered requests. */
  function Exchange(script: seq<Fate>, n: nat, connects: nat): Tally {
    if !Head(script).Works? then Tally(None, Tail(script), None, 1, 1, connects)
    else
      var f := Head(Tail(script));
      if f.Delivers? && f.index == n && f.typ == DataResponse then
        Tally(Some(f.body), Tail(Tail(script)), Some(n + 1), 1, 1, connects)
      else
        Tally(None, Tail(Tail(script)), None, 1, 1, connects)
  }

  /** One attempt, which connects first if there is no connection. */
  function Attempt(script: seq<Fate>, live: Option<nat>): Tally {
    if live.Some? then Exchange(script, live.value, 0)
    else if Head(script).Works? then Exchange(Tail(script), 0, 1)
    else Tally(None, Tail(script), None, 1, 0, 1)
  }

  /** The connection that a reconnect leaves. */
  function Reconnected(script: seq<Fate>): Option<nat> {
    if Head(script).Works? then Some(0) else None
  }

  /** At most `left` attempts, with a reconnect after each that fails. */
  function Attempts(script: seq<Fate>, live: Option<nat>, left: nat): Tally
    decreases left
  {
    if left == 0 then Tally(None, script, live, 0, 0, 0) else
    var t := Attempt(script, live);
    if t.value.Some? then t
    else
      var more := Attempts(Tail(t.rest), Reconnected(t.rest), left - 1);
      more.(attempts := 1 + more.attempts, frames := t.frames + more.frames, connects := t.connects + 1 + more.connects)
  }

  /** A working network: the server's answer is the next frame to come. */
  ghost predicate Working(script: seq<Fate>, live: Option<nat>, v: Bytes) {
    match live
    case Some(n) => [Works, Delivers(n, DataResponse, v)] <= script
    case None => [Works, Works, Delivers(0, DataResponse, v)] <= script
  }

  /** On a working network an attempt returns the answer, with one frame, and a
      connect only if there was no connection. */
  lemma FirstAttemptAnswers(script: seq<Fate>, live: Option<nat>, left: nat, v: Bytes)
    requires 0 < left && Working(script, live, v)
    ensures var t := Attempts(script, live, left);
            && t.value == Some(v) && t.attempts == 1 && t.frames == 1
            && t.connects == if live.Some? then 0 else 1
  {
  }

  /** Failed attempts leave the others what they would do by themselves. */
  lemma {:induction false} AttemptsCompose(script: seq<Fate>, live: Option<nat>, failed: nat, left: nat)
    requires failed <= left && Attempts(script, live, failed).value == None
    ensures var t := Attempts(script, live, failed);
            var more := Attempts(t.rest, t.live, left - failed);
            Attempts(script, live, left) ==
              more.(attempts := failed + more.attempts, frames := t.frames + more.frames, connects := t.connects + more.connects)
    decreases failed
  {
    hide Attempt, Head, Tail, Reconnected;
    if failed > 0 {
      var t := Attempt(script, live);
      AttemptsCompose(Tail(t.rest), Reconnected(t.rest), failed - 1, left - 1);
    }
  }

  /** However the first attempts fail, the first one that finds the network
      working ends the call with the server's answer. */
  lemma LaterAttemptAnswers(script: seq<Fate>, live: Option<nat>, failed: nat, left: nat, v: Bytes)
    requires failed < left
    requires var t := Attempts(script, live, failed); t.value == None && Working(t.rest, t.live, v)
    ensures var t := Attempts(script, live, left);
            && t.value == Some(v) && t.attempts == failed + 1
            && t.frames == Attempts(script, live, failed).frames + 1
  {
    var t := Attempts(script, live, failed);
    AttemptsCompose(script, live, failed, left);
    FirstAttemptAnswers(t.rest, t.live, left - failed, v);
  }

  /** A send that breaks, a reconnect and a second attempt, written out. */
  lemma SecondAttemptAnswers(script: seq<Fate>, n: nat, left: nat, v: Bytes)
    requires 2 <= left && 4 <= |script|
    requires script[0] == Breaks || script[0] == BreaksLate
    requires script[1..4] == [Works, Works, Delivers(0, DataResponse, v)]
    ensures var t := Attempts(script, Some(n), left);
            t.value == Some(v) && t.attempts == 2 && t.frames == 2 && t.connects == 1
  {
    assert script[1] == script[1..4][0];
    var t := Attempts(script, Some(n), 1);
    assert t == Tally(None, script[2..], Some(0), 1, 1, 1);
    assert script[2] == script[1..4][1] && script[3] == script[1..4][2];
    AttemptsCompose(script, Some(n), 1, left);
    FirstAttemptAnswers(script[2..], Some(0), left - 1, v);
  }

  lemma AttemptBounds(script: seq<Fate>, live: Option<nat>)
    ensures var t := Attempt(script, live);
            t.attempts == 1 && t.frames <= 1 && t.connects <= 1 && (t.value.Some? ==> t.frames == 1)
  {
  }

  /** A call gives up only after all its attempts, and its attempts bound what
      it uses. */
  lemma {:induction false} AttemptsBounds(script: seq<Fate>, live: Option<nat>, left: nat)
    ensures var t := Attempts(script, live, left);
            && t.attempts <= left && (t.value.None? ==> t.attempts == left) && (t.value.Some? ==> 1 <= t.attempts)
            && t.frames <= t.attempts && t.connects <= 2 * t.attempts
            && (t.value.Some? ==> 1 <= t.frames && t.connects < 2 * t.attempts)
    decreases left
  {
    hide Attempt, Head, Tail, Reconnected;
    if left > 0 {
      AttemptBounds(script, live);
      var t := Attempt(script, live);
      if t.value.None? {
        AttemptsBounds(Tail(t.rest), Reconnected(t.rest), left - 1);
      }
    }
  }

  class TunnelClient {
    const net: Network
    const maxRetries: int
    const backoff: real
    var sock: Option<nat>       // index of the current connection
    var connected: bool
    var calls: nat              // calls of send_request so far

    /** The socket field is set exactly while connected; requests carry the tags
        of calls made so far; the server is FIFO. */
    ghost predicate Valid()
      reads `sock, `connected, `calls, net`conns
    {
      && connected == sock.Some?
      && (sock.Some? ==> sock.value < |net.conns|)
      && InOrder(net.conns, calls)
    }

    /** Between calls the tunnel is disconnected or has no unanswered request on
        its connection. */
    ghost predicate Quiet()
      reads `sock, `connected, `calls, net`conns
    {
      Valid() && (sock.Some? ==> net.conns[sock.value].NoneOpen())
    }

    /** The number of requests on the current connection, if there is one. */
    ghost function Live(): Option<nat>
      reads `sock, `connected, `calls, net`conns
      requires Quiet()
    {
      if sock.Some? then Some(|net.conns[sock.value].requests|) else None
    }

    constructor (net: Network, maxRetries: int, backoff: real)
      requires net.conns == []
      ensures Quiet() && this.net == net && this.maxRetries == maxRetries && this.backoff == backoff
      ensures !connected && calls == 0
    {
      this.net, this.maxRetries, this.backoff := net, maxRetries, backoff;
      sock, connected, calls := None, false, 0;
    }

    method CloseSocket()
      modifies `sock, `connected
      ensures sock == None && !connected
    {
      sock := None;
      connected := false;
    }

    /** _do_connect: the old socket goes first, so afterwards the tunnel is on a
        connection of its own without requests, or disconnected. */
    method DoConnect() returns (ok: bool)
      requires Valid()
      modifies `sock, `connected, net`script, net`connects, net`conns
      ensures Quiet()
      ensures ok == connected
      ensures ok ==> sock == Some(|old(net.conns)|) && net.conns == old(net.conns) + [Conn([], [])]
      ensures !ok ==> sock == None && net.conns == old(net.conns)
      ensures net.connects == old(net.connects) + 1
      ensures (ok <==> Head(old(net.script)).Works?) && net.script == Tail(old(net.script))
      ensures Live() == Reconnected(old(net.script))
      ensures Grown(old(net.conns), net.conns)
    {
      CloseSocket();
      var conn := net.Open();
      if conn.None? {
        return false;
      }
      sock := conn;
      connected := true;
      return true;
    }

    /** connect(). */
    method Connect() returns (ok: bool)
      requires Quiet()
      modifies `sock, `connected, net`script, net`connects, net`conns
      ensures Quiet() && Grown(old(net.conns), net.conns)
    {
      ok := DoConnect();
    }

    /** close(). */
    method Close()
      requires Quiet()
      modifies `sock, `connected
      ensures Quiet() && !connected
    {
      CloseSocket();
    }

    /** _do_request: what it returns answers the frame it has just sent. After an
        exception the connection may have an unanswered request. */
    method DoRequest(data: Bytes, ghost call: nat) returns (r: Option<Bytes>)
      requires Quiet() && 0 < calls && call == calls - 1
      modifies `sock, `connected, net`script, net`connects, net`frames, net`conns
      ensures Valid()
      ensures r.Some? ==> Quiet() && Answered(net.conns, call, data, r.value)
      ensures var t := Attempt(old(net.script), old(Live()));
              && r == t.value && net.script == t.rest
              && net.frames == old(net.frames) + t.frames && net.connects == old(net.connects) + t.connects
      ensures Grown(old(net.conns), net.conns)
      ensures r.Some? ==> Live() == Attempt(old(net.script), old(Live())).live
      // on a working network what it returns is the server's answer
      ensures forall v | old(sock).Some? :: [Works, Delivers(|old(net.conns[sock.value].requests)|, DataResponse, v)] <= old(net.script) ==> r == Some(v)
      ensures forall v | old(sock).None? :: [Works, Works, Delivers(0, DataResponse, v)] <= old(net.script) ==> r == Some(v)
    {
      hide InOrder, Asked, Told, Grown, Answered, Conn.CanAnswer;
      StillGrown(net.conns);
      if !connected || sock.None? {
        var ok := DoConnect();
        if !ok {
          return None;
        }
      }
      var k := sock.value;
      ghost var conns, request := net.conns, Request(call, data);
      AskedKeeps(conns, k, request, calls);
      StillGrown(conns);
      var sent := net.Send(k, Request(calls - 1, data));
      GrownOn(old(net.conns), conns, net.conns);
      if !sent {
        return None;
      }
      AnswersOnly(conns, k, request, calls);
      var a := net.Recv(k);
      if a.None? {
        return None;
      }
      PairedAnswer(conns, k, request, a.value, calls);
      GrownOn(old(net.conns), conns, net.conns);
      if a.value.typ == Error {
        return None;
      }
      if a.value.typ != DataResponse {
        return None;
      }
      return Some(a.value.body);
    }

    /** A new call begins; its requests will carry a tag of their own. */
    method CountCall()
      requires Quiet()
      modifies `calls
      ensures Quiet() && calls == old(calls) + 1 && Live() == old(Live())
    {
      LaterCalls(net.conns, calls);
      calls := calls + 1;
    }

    /** The try block of send_request with its handler: a request, and a reconnect
        if it fails. */
    method RequestOrReconnect(data: Bytes, ghost call: nat) returns (r: Option<Bytes>)
      requires Quiet() && 0 < calls && call == calls - 1
      modifies `sock, `connected, net`script, net`connects, net`frames, net`conns
      ensures Quiet() && Grown(old(net.conns), net.conns)
      ensures r.Some? ==> Answered(net.conns, call, data, r.value)
      ensures var t := Attempt(old(net.script), old(Live()));
              && r == t.value && net.frames == old(net.frames) + t.frames
              && if r.Some? then
                   net.script == t.rest && Live() == t.live && net.connects == old(net.connects) + t.connects
                 else
                   net.script == Tail(t.rest) && Live() == Reconnected(t.rest) && net.connects == old(net.connects) + t.connects + 1
    {
      hide InOrder, Answered, Grown, Attempt, Head, Tail, Reconnected;
      r := DoRequest(data, call);
      if r.None? {
        ghost var broken := net.conns;
        var _ := DoConnect();
        GrownOn(old(net.conns), broken, net.conns);
      }
    }

    /** send_request, used by one caller: whatever fails and wherever, a value it
        returns is the server's answer to a frame with this data that this
        very call wrote. It ends, with bounded frames, connects and sleep. */
    method SendRequest(data: Bytes) returns (r: Result<Bytes, CallError>)
      requires Quiet()
      modifies `sock, `connected, `calls, net`script, net`connects, net`frames, net`conns, net`slept
      ensures Quiet() && calls == old(calls) + 1
      ensures r.Ok? ==> Answered(net.conns, old(calls), data, r.value)
      ensures Grown(old(net.conns), net.conns)
      ensures net.frames <= old(net.frames) + Max0(maxRetries)
      ensures net.connects <= old(net.connects) + 2 * Max0(maxRetries)
      ensures r == Err(Exhausted) && 0 <= maxRetries ==>
                net.slept == old(net.slept) + SleepBefore(backoff, maxRetries)
      ensures r == Err(Exhausted) && maxRetries < 0 ==> net.slept == old(net.slept)
      ensures r == Err(BadSleep) ==> backoff < 0.0 && 2 <= maxRetries
      // it returns an answer exactly when one of its attempts gets one
      ensures var t := Attempts(old(net.script), old(Live()), Max0(maxRetries));
              if r == Err(BadSleep) then Attempt(old(net.script), old(Live())).value == None
              else
                && r == (if t.value.Some? then Ok(t.value.value) else Err(Exhausted))
                && net.script == t.rest && Live() == t.live
                && net.frames == old(net.frames) + t.frames && net.connects == old(net.connects) + t.connects
                && (r.Ok? ==> net.slept == old(net.slept) + SleepBefore(backoff, t.attempts))
      // on a working network at once, with one frame and no sleep
      ensures forall v | 1 <= maxRetries && Working(old(net.script), old(Live()), v) ::
                && r == Ok(v) && net.frames == old(net.frames) + 1 && net.slept == old(net.slept)
                && net.connects == old(net.connects) + (if old(Live()).Some? then 0 else 1)
    {
      hide Quiet, Valid, Live, Sums, Working, SleepBefore, InOrder, Answered, Grown, Attempt, Attempts, Head, Tail, Reconnected;
      NoSleepYet(backoff);
      StillGrown(net.conns);
      if 1 <= maxRetries {
        WorksAtOnce(net.script, Live(), maxRetries);
      }
      AttemptsBounds(net.script, Live(), Max0(maxRetries));
      ghost var first := Attempt(net.script, Live());
      ghost var total := Attempts(net.script, Live(), Max0(maxRetries));
      NothingSummed(total);
      ghost var call := calls;
      CountCall();
      var attempt := 1;
      while attempt <= maxRetries
        invariant 1 <= attempt && (0 <= maxRetries ==> attempt <= maxRetries + 1) && (maxRetries < 0 ==> attempt == 1)
        invariant Quiet() && calls == call + 1
        invariant Grown(old(net.conns), net.conns)
        invariant net.slept == old(net.slept) + SleepBefore(backoff, SleptAttempts(attempt))
        invariant attempt == 1 || 0.0 <= backoff || attempt > maxRetries
        invariant attempt == 1 ==> Attempt(net.script, Live()) == first
        invariant Sums(total, attempt - 1, net.frames - old(net.frames), net.connects - old(net.connects),
                       Attempts(net.script, Live(), Max0(maxRetries) - (attempt - 1)))
      {
        SumsStep(total, attempt - 1, net.frames - old(net.frames), net.connects - old(net.connects),
                 net.script, Live(), maxRetries - (attempt - 1));
        ghost var started := net.conns;
        var response := RequestOrReconnect(data, call);
        GrownOn(old(net.conns), started, net.conns);
        if response.Some? {
          return Ok(response.value);
        }
        if attempt < maxRetries {
          var ok := net.Sleep(backoff * attempt as real);
          if !ok {
            NegativeBackoff(backoff, attempt);
            SumsEnd(total, attempt, net.frames - old(net.frames), net.connects - old(net.connects),
                    net.script, Live(), maxRetries - attempt);
            return Err(BadSleep);
          }
          SleepStep(backoff, attempt);
        }
        attempt := attempt + 1;
      }
      SumsEnd(total, attempt - 1, net.frames - old(net.frames), net.connects - old(net.connects), net.script, Live(), 0);
      return Err(Exhausted);
    }

    /** The attempts after which the loop has slept once it is about to start
        attempt n: all before it, except that there is no sleep after the last. */
    ghost function SleptAttempts(n: nat): nat {
      if n <= maxRetries then n else if maxRetries < 0 then 0 else maxRetries
    }
  }

  function Max0(n: int): nat {
    if n < 0 then 0 else n
  }

  /** `total` is some attempts without a value, and `more`. */
  ghost predicate Sums(total: Tally, attempts: int, frames: int, connects: int, more: Tally) {
    && total.value == more.value && total.rest == more.rest && total.live == more.live
    && total.attempts == attempts + more.attempts
    && total.frames == frames + more.frames && total.connects == connects + more.connects
    && 0 <= frames <= attempts && 0 <= connects <= 2 * attempts
  }

  lemma SumsStep(total: Tally, n: int, frames: int, connects: int, script: seq<Fate>, live: Option<nat>, left: nat)
    requires 0 < left && Sums(total, n, frames, connects, Attempts(script, live, left))
    ensures var t := Attempt(script, live);
            if t.value.Some? then
              && total.value == t.value && total.rest == t.rest && total.live == t.live && total.attempts == n + 1
              && total.frames == frames + t.frames && total.connects == connects + t.connects
            else
              Sums(total, n + 1, frames + t.frames, connects + t.connects + 1, Attempts(Tail(t.rest), Reconnected(t.rest), left - 1))
  {
    hide Attempts, Attempt;
    AttemptsStep(script, live, left);
  }

  lemma SumsEnd(total: Tally, n: int, frames: int, connects: int, script: seq<Fate>, live: Option<nat>, left: nat)
    requires Sums(total, n, frames, connects, Attempts(script, live, left))
    ensures 0 <= frames <= n && 0 <= connects <= 2 * n
    ensures left == 0 ==>
              && total.value == None && total.rest == script && total.live == live && total.attempts == n
              && total.frames == frames && total.connects == connects
  {
  }

  lemma NothingSummed(total: Tally)
    ensures Sums(total, 0, 0, 0, total)
  {
  }

  lemma WorksAtOnce(script: seq<Fate>, live: Option<nat>, left: nat)
    requires 0 < left
    ensures forall v | Working(script, live, v) ::
              var t := Attempts(script, live, left);
              && t.value == Some(v) && t.attempts == 1 && t.frames == 1 && t.connects == (if live.Some? then 0 else 1)
              && Attempt(script, live).value == Some(v)
  {
    hide Working, Attempts, Attempt;
    forall v | Working(script, live, v)
      ensures var t := Attempts(script, live, left);
              && t.value == Some(v) && t.attempts == 1 && t.frames == 1 && t.connects == (if live.Some? then 0 else 1)
              && Attempt(script, live).value == Some(v)
    {
      FirstAttemptAnswers(script, live, left, v);
      AttemptsStep(script, live, left);
      AttemptAnswers(script, live, v);
    }
  }

  lemma AttemptAnswers(script: seq<Fate>, live: Option<nat>, v: Bytes)
    requires Working(script, live, v)
    ensures Attempt(script, live).value == Some(v)
  {
  }

  lemma AttemptsStep(script: seq<Fate>, live: Option<nat>, left: nat)
    requires 0 < left
    ensures var t := Attempt(script, live);
            && t.attempts == 1 && t.frames <= 1 && t.connects <= 1
            && if t.value.Some? then Attempts(script, live, left) == t
               else
                 var more := Attempts(Tail(t.rest), Reconnected(t.rest), left - 1);
                 Attempts(script, live, left) ==
                   more.(attempts := 1 + more.attempts, frames := t.frames + more.frames, connects := t.connects + 1 + more.connects)
  {
    hide Head, Tail, Reconnected;
    AttemptBounds(script, live);
  }

  lemma SleepStep(backoff: real, n: nat)
    ensures SleepBefore(backoff, n + 1) == SleepBefore(backoff, n) + backoff * n as real
  {
    var x := n as real;
    assert (x + 1.0) * x == x * (x - 1.0) + 2.0 * x;
    assert backoff * ((x + 1.0) * x) == backoff * (x * (x - 1.0)) + backoff * (2.0 * x);
  }

  lemma NoSleepYet(backoff: real)
    ensures SleepBefore(backoff, 0) == 0.0 && SleepBefore(backoff, 1) == 0.0
  {
  }

  lemma NegativeBackoff(backoff: real, n: nat)
    requires 0 < n && backoff * n as real < 0.0
    ensures backoff < 0.0
  {
  }

  lemma LaterCalls(conns: seq<Conn>, calls: nat)
    requires InOrder(conns, calls)
    ensures InOrder(conns, calls + 1)
  {
  }

  lemma StillGrown(conns: seq<Conn>)
    ensures Grown(conns, conns)
  {
  }

  lemma GrownOn(a: seq<Conn>, b: seq<Conn>, c: seq<Conn>)
    requires Grown(a, b) && Grown(b, c)
    ensures Grown(a, c)
  {
  }

  lemma AskedKeeps(conns: seq<Conn>, k: nat, r: Request, calls: nat)
    requires InOrder(conns, calls) && k < |conns| && r.call < calls
    ensures InOrder(Asked(conns, k, r), calls) && Grown(conns, Asked(conns, k, r))
    ensures |Asked(conns, k, r)| == |conns|
  {
  }

  /** With nothing open before, the answer read after a request is its answer,
      and leaves nothing open. */
  lemma PairedAnswer(conns: seq<Conn>, k: nat, r: Request, a: Answer, calls: nat)
    requires InOrder(conns, calls) && k < |conns| && r.call < calls
    requires conns[k].NoneOpen() && Asked(conns, k, r)[k].CanAnswer(a.index)
    ensures a.index == |conns[k].requests|
    ensures var conns' := Told(Asked(conns, k, r), k, a);
            && InOrder(conns', calls) && |conns'| == |conns| && conns'[k].NoneOpen()
            && |conns'[k].requests| == |conns[k].requests| + 1
            && Grown(conns, conns')
            && (a.typ == DataResponse ==> Answered(conns', r.call, r.data, a.body))
  {
    var c := conns[k];
    AskedKeeps(conns, k, r, calls);
    PairedIndex(c, r, a);
    var conns' := Told(Asked(conns, k, r), k, a);
    assert conns' == conns[k := Conn(c.requests + [r], c.answers + [a])];
    if a.typ == DataResponse {
      assert AnsweredAt(conns', k, |c.answers|, r.call, r.data, a.body);
    }
  }

  /** With nothing open before a request, its answer is the one frame that can come. */
  lemma AnswersOnly(conns: seq<Conn>, k: nat, r: Request, calls: nat)
    requires InOrder(conns, calls) && k < |conns| && conns[k].NoneOpen()
    ensures |Asked(conns, k, r)| == |conns|
    ensures forall index :: Asked(conns, k, r)[k].CanAnswer(index) <==> index == |conns[k].requests|
  {
    var c := conns[k];
    forall index
      ensures Asked(conns, k, r)[k].CanAnswer(index) <==> index == |c.requests|
    {
      if Asked(conns, k, r)[k].CanAnswer(index) {
        PairedIndex(c, r, Answer(index, Error, []));
      }
    }
  }

  lemma PairedIndex(c: Conn, r: Request, a: Answer)
    requires c.Fifo() && c.NoneOpen()
    requires c.(requests := c.requests + [r]).CanAnswer(a.index)
    ensures a.index == |c.requests| && Conn(c.requests + [r], c.answers + [a]).Fifo()
  {
    NextAnswerIsLast(c.(requests := c.requests + [r]), a.index);
    forall i | 0 <= i < |c.answers|
      ensures c.answers[i].index < a.index
    {
      AnswerAbove(c, i, |c.answers| - 1);
    }
  }

  /** Any sequence of calls by one caller: every value returned is the answer to
      a frame of its own call, never one of an earlier call. */
  method SendAll(t: TunnelClient, requests: seq<Bytes>) returns (results: seq<Result<Bytes, CallError>>)
    requires t.Quiet()
    modifies t, t.net
    ensures t.Quiet() && |results| == |requests|
    ensures forall i | 0 <= i < |requests| && results[i].Ok? ::
              Answered(t.net.conns, old(t.calls) + i, requests[i], results[i].value)
  {
    results := [];
    for n := 0 to |requests|
      invariant t.Quiet() && |results| == n && t.calls == old(t.calls) + n
      invariant forall i | 0 <= i < n && results[i].Ok? ::
                  Answered(t.net.conns, old(t.calls) + i, requests[i], results[i].value)
    {
      ghost var conns := t.net.conns;
      var r := t.SendRequest(requests[n]);
      forall i | 0 <= i < n && results[i].Ok?
        ensures Answered(t.net.conns, old(t.calls) + i, requests[i], results[i].value)
      {
        StaysAnswered(conns, t.net.conns, old(t.calls) + i, requests[i], results[i].value);
      }
      results := results + [r];
    }
  }
}
