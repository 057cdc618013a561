/**
 The socket side of crypto/protocol.py. TCP may split the bytes of the peer
 anywhere: a script of arrivals decides what each `recv` returns.
 */
module FrameStream {
  import opened Bytes
  import opened Framing

  /** What one call of socket.recv runs into. */
  datatype Arrival = Chunk(size: nat) | Timeout

  ghost predicate IsSuffix<T>(b: seq<T>, a: seq<T>) {
    |b| <= |a| && b == a[|a| - |b|..]
  }

  class Socket {
    var inbound: Bytes            // bytes of the peer not yet read, up to its close
    var script: seq<Arrival>      // when it runs out, recv returns all it may
    var sent: Bytes               // everything written by sendall

    constructor (inbound: Bytes, script: seq<Arrival>)
      ensures this.inbound == inbound && this.script == script && sent == []
    {
      this.inbound := inbound;
      this.script := script;
      sent := [];
    }

    /** Between 1 and n bytes; none exactly when the peer has closed. */
    method Recv(n: nat) returns (r: Result<Bytes, RecvError>)
      requires n > 0
      modifies `inbound, `script
      ensures r.Ok? ==> |r.value| <= n && old(inbound) == r.value + inbound
      ensures r.Ok? ==> (r.value == [] <==> old(inbound) == [])
      ensures r.Err? ==> r == Err(TimedOut) && inbound == old(inbound)
      ensures r.Err? <==> old(script) != [] && old(script)[0].Timeout?
      ensures old(script) != [] && old(script)[0].Chunk? && 1 <= old(script)[0].size <= n ==>
                (old(script)[0].size <= |old(inbound)| ==> |r.value| == old(script)[0].size)
      ensures script == if old(script) == [] then [] else old(script)[1..]
    {
      var size := n;
      if script != [] {
        var next := script[0];
        script := script[1..];
        if next.Timeout? {
          return Err(TimedOut);
        }
        size := if 1 <= next.size <= n then next.size else n;
      }
      size := if size <= |inbound| then size else |inbound|;
      r := Ok(inbound[..size]);
      inbound := inbound[size..];
    }

    /** Exactly n bytes, or `Closed` after reading all that is left, or a timeout
        that drops what was read so far. */
    method RecvExact(n: nat) returns (r: Result<Bytes, RecvError>)
      modifies `inbound, `script
      ensures r.Ok? ==> n <= |old(inbound)| && r.value == old(inbound)[..n] && inbound == old(inbound)[n..]
      ensures r == Err(Closed) ==> |old(inbound)| < n && inbound == []
      ensures r.Err? ==> r == Err(Closed) || (r == Err(TimedOut) && Timeout in old(script))
      ensures r == Err(TimedOut) ==> |script| < |old(script)| && old(script)[|old(script)| - |script| - 1] == Timeout
      ensures IsSuffix(script, old(script))
      ensures IsSuffix(inbound, old(inbound))
    {
      var buf := [];
      while |buf| < n
        invariant |buf| <= n && old(inbound) == buf + inbound
        invariant IsSuffix(script, old(script))
        decreases n - |buf|
      {
        var chunk := Recv(n - |buf|);
        if chunk.Err? {
          return chunk;
        }
        if chunk.value == [] {
          return Err(Closed);
        }
        buf := buf + chunk.value;
      }
      assert inbound == old(inbound)[n..] && buf == old(inbound)[..n];
      return Ok(buf);
    }

    /** send_frame: on success exactly one printed frame goes out, otherwise nothing. */
    method SendFrame(c: Crypto, keys: Keys, m: Message, nonce: Nonce) returns (r: Option<SendError>)
      modifies `sent
      ensures match Encode(c, keys, m, nonce)
              case Ok(wire) => r == None && sent == old(sent) + wire
              case Err(e) => r == Some(e) && sent == old(sent)
    {
      if |m.sid| != SESSION_ID_SIZE {
        return Some(BadSessionId);
      }
      var payload, field := m.payload, Zeros(GCM_NONCE_SIZE);
      if keys.enc.Some? {
        if |keys.enc.value| != AES_KEY_SIZE {
          return Some(BadEncKey);
        }
        payload, field := c.seal(keys.enc.value, nonce, m.payload), nonce;
      }
      var body := [Code(m.typ)] + m.sid + field + payload;
      var mac := c.mac(body, keys.MacKey());
      var total := |body| + HMAC_DIGEST_SIZE;
      if total > MAX_FRAME_SIZE {
        return Some(FrameTooLarge);
      }
      sent := sent + (Pack(total) + body + mac);
      return None;
    }

    /** recv_frame: whatever the chunks, it returns what `Receive` says about the
        byte string and reads exactly those bytes, unless a read times out. */
    method RecvFrame(c: Crypto, keys: Keys) returns (r: Result<Message, RecvError>)
      modifies `inbound, `script
      ensures r != Err(TimedOut) ==>
                var (expected, used) := Receive(c, keys, old(inbound));
                r == expected && inbound == old(inbound)[used..]
      ensures r == Err(TimedOut) ==> Timeout in old(script)
      ensures IsSuffix(script, old(script))
    {
      ghost var all := inbound;
      var header := RecvExact(HEADER_SIZE);
      if header.Err? {
        assert header == Err(Closed) ==> Receive(c, keys, all) == (Err(Closed), |all|);
        return Err(header.error);
      }
      assert header.value == all[..HEADER_SIZE] && inbound == all[HEADER_SIZE..];
      var total := Unpack(header.value);
      if total > MAX_FRAME_SIZE {
        return Err(TooLarge);
      }
      if total < MIN_FRAME_SIZE {
        return Err(TooSmall);
      }
      var raw := RecvExact(total);
      if raw.Err? {
        assert raw == Err(Closed) ==> Receive(c, keys, all) == (Err(Closed), |all|);
        return Err(raw.error);
      }
      assert raw.value == all[HEADER_SIZE..HEADER_SIZE + total] && inbound == all[HEADER_SIZE + total..];
      assert Scan(c, keys.MacKey(), all) == (Check(c, keys.MacKey(), raw.value), HEADER_SIZE + total);
      var body := raw.value[..total - HMAC_DIGEST_SIZE];
      var mac := raw.value[total - HMAC_DIGEST_SIZE..];
      if c.mac(body, keys.MacKey()) != mac {
        return Err(BadMac);
      }
      var typ := TypeOf(body[0]);
      if typ.None? {
        return Err(UnknownType);
      }
      var frame := Split(typ.value, body);
      r := Decrypt(c, keys.enc, frame);
    }

    /** Repeated recv_frame: without a timeout it is `Drain` of the byte string;
        with one, what came before it is a prefix of that. */
    method ReceiveAll(c: Crypto, keys: seq<Keys>) returns (messages: seq<Message>, error: Option<RecvError>)
      modifies `inbound, `script
      ensures var d := Drain(c, keys, old(inbound));
              && (error != Some(TimedOut) ==> Drained(messages, error, inbound) == d)
              && messages <= d.messages
      ensures error == Some(TimedOut) ==> Timeout in old(script)
    {
      hide Receive, Drain;
      messages, error := [], None;
      assert keys[0..] == keys;
      for i := 0 to |keys|
        invariant |messages| == i && error == None
        invariant IsSuffix(script, old(script))
        invariant var rest := Drain(c, keys[i..], inbound);
                  Drain(c, keys, old(inbound)) == rest.(messages := messages + rest.messages)
      {
        DrainUnfold(c, keys, i, inbound);
        var r := RecvFrame(c, keys[i]);
        if r.Err? {
          return messages, Some(r.error);
        }
        messages := messages + [r.value];
      }
      DrainUnfold(c, keys, |keys|, inbound);
    }
  }

  lemma DrainUnfold(c: Crypto, keys: seq<Keys>, i: nat, s: Bytes)
    requires i <= |keys|
    ensures i == |keys| ==> Drain(c, keys[i..], s) == Drained([], None, s)
    ensures i < |keys| ==>
              var (r, used) := Receive(c, keys[i], s);
              Drain(c, keys[i..], s) ==
              match r
              case Err(e) => Drained([], Some(e), s[used..])
              case Ok(m) =>
                var d := Drain(c, keys[i + 1..], s[used..]);
                d.(messages := [m] + d.messages)
  {
    if i < |keys| {
      assert keys[i..][0] == keys[i] && keys[i..][1..] == keys[i + 1..];
    }
  }

  /** What send_frame wrote, delivered in any chunks: the receiver's calls with
      matching keys return exactly the messages whose frames arrived whole;
      after a timeout, a prefix of them. */
  method DeliverAndReceive(c: Crypto, sends: seq<Sending>, delivered: Bytes, script: seq<Arrival>)
    returns (messages: seq<Message>, error: Option<RecvError>, unread: Bytes)
    requires c.Sound() && AllEncode(c, sends)
    requires delivered <= Wire(c, sends)
    ensures messages <= MessagesOf(sends)
    ensures Timeout !in script ==>
              && Arrived(c, sends, delivered, |messages|)
              && unread == []
              && error == (if |messages| == |sends| then None else Some(Closed))
    ensures Timeout !in script && delivered == Wire(c, sends) ==> messages == MessagesOf(sends)
  {
    var s := new Socket(delivered, script);
    messages, error := s.ReceiveAll(c, KeysOf(sends));
    unread := s.inbound;
    ghost var n := DrainIsQueue(c, sends, delivered);
  }
}
