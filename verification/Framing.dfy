/**
 The frame format of crypto/protocol.py as a printer and a parser over byte
 strings:

   total_len (4) | type (1) | session id (16) | nonce (12) | payload | HMAC (32)

 HMAC and AES-GCM are the functions of a `Crypto` value.
 */
module Framing {
  import opened Bytes

  const HEADER_SIZE := 4
  const SESSION_ID_SIZE := 16
  const GCM_NONCE_SIZE := 12
  const HMAC_DIGEST_SIZE := 32
  const AES_KEY_SIZE := 32
  const MAX_FRAME_SIZE := 16 * 1024 * 1024
  const MIN_FRAME_SIZE := 1 + SESSION_ID_SIZE + GCM_NONCE_SIZE + HMAC_DIGEST_SIZE

  type Digest = d: Bytes | |d| == HMAC_DIGEST_SIZE witness Zeros(32)
  type Nonce = n: Bytes | |n| == GCM_NONCE_SIZE witness Zeros(12)

  /** mac(data, key) is HMAC-SHA256; seal(key, nonce, text) and
      open(key, nonce, cipher) are AES-256-GCM, open giving None for a bad tag. */
  datatype Crypto = Crypto(
    mac: (Bytes, Bytes) -> Digest,
    seal: (Bytes, Nonce, Bytes) -> Bytes,
    open: (Bytes, Nonce, Bytes) -> Option<Bytes>)
  {
    /** What is assumed of AES-GCM: a 16-byte tag, and decryption inverts encryption. */
    ghost predicate Sound() {
      forall k, n, p :: |seal(k, n, p)| == |p| + 16 && open(k, n, seal(k, n, p)) == Some(p)
    }
  }

  datatype MessageType =
    | ClientHello | ServerHello | ClientResponse | ServerDone
    | DataRequest | DataResponse | Error

  function Code(t: MessageType): byte {
    match t
    case ClientHello => 0x01
    case ServerHello => 0x02
    case ClientResponse => 0x03
    case ServerDone => 0x04
    case DataRequest => 0x10
    case DataResponse => 0x11
    case Error => 0xFF
  }

  function TypeOf(b: byte): (t: Option<MessageType>)
    ensures t.Some? <==> exists m :: Code(m) == b
    ensures t.Some? ==> Code(t.value) == b
  {
    if b == 0x01 then assert Code(ClientHello) == b; Some(ClientHello)
    else if b == 0x02 then assert Code(ServerHello) == b; Some(ServerHello)
    else if b == 0x03 then assert Code(ClientResponse) == b; Some(ClientResponse)
    else if b == 0x04 then assert Code(ServerDone) == b; Some(ServerDone)
    else if b == 0x10 then assert Code(DataRequest) == b; Some(DataRequest)
    else if b == 0x11 then assert Code(DataResponse) == b; Some(DataResponse)
    else if b == 0xFF then assert Code(Error) == b; Some(Error)
    else None
  }

  /** The keys a caller passes: no encryption key means clear text, and an
      absent or empty MAC key means the all-zero handshake key. */
  datatype Keys = Keys(enc: Option<Bytes>, mac: Option<Bytes>)
  {
    function MacKey(): Bytes {
      if mac.Some? && mac.value != [] then mac.value else Zeros(32)
    }
  }

  /** The fields on the wire; `payload` is already encrypted if it ever is. */
  datatype Frame = Frame(typ: MessageType, sid: Bytes, nonce: Bytes, payload: Bytes)
  {
    predicate Fits() {
      && |sid| == SESSION_ID_SIZE
      && |nonce| == GCM_NONCE_SIZE
      && |payload| + MIN_FRAME_SIZE <= MAX_FRAME_SIZE
    }

    function Body(): Bytes {
      [Code(typ)] + sid + nonce + payload
    }
  }

  datatype Message = Message(typ: MessageType, sid: Bytes, payload: Bytes)

  // ---------------------------------------------------------------------
  // Printer
  // ---------------------------------------------------------------------

  datatype SendError = BadSessionId | BadEncKey | FrameTooLarge

  function Print(c: Crypto, macKey: Bytes, f: Frame): Bytes
    requires f.Fits()
  {
    var body := f.Body();
    Pack(|body| + HMAC_DIGEST_SIZE) + body + c.mac(body, macKey)
  }

  /** The frame that send_frame builds; `nonce` is the random draw of encrypt_payload. */
  function Build(c: Crypto, keys: Keys, m: Message, nonce: Nonce): Result<Frame, SendError> {
    if |m.sid| != SESSION_ID_SIZE then Err(BadSessionId)
    else if keys.enc.Some? && |keys.enc.value| != AES_KEY_SIZE then Err(BadEncKey)
    else
      var f := if keys.enc.Some? then Frame(m.typ, m.sid, nonce, c.seal(keys.enc.value, nonce, m.payload))
               else Frame(m.typ, m.sid, Zeros(GCM_NONCE_SIZE), m.payload);
      if |f.Body()| + HMAC_DIGEST_SIZE > MAX_FRAME_SIZE then Err(FrameTooLarge) else Ok(f)
  }

  function Encode(c: Crypto, keys: Keys, m: Message, nonce: Nonce): (r: Result<Bytes, SendError>)
    ensures r.Ok? ==> HEADER_SIZE + MIN_FRAME_SIZE <= |r.value| <= HEADER_SIZE + MAX_FRAME_SIZE
  {
    match Build(c, keys, m, nonce)
    case Err(e) => Err(e)
    case Ok(f) => Ok(Print(c, keys.MacKey(), f))
  }

  // ---------------------------------------------------------------------
  // Parser
  // ---------------------------------------------------------------------

  datatype RecvError =
    | Closed            // ConnectionError: the peer closed in mid-frame
    | TimedOut          // socket.timeout
    | TooLarge | TooSmall | BadMac | UnknownType | BadDecKey   // ValueError
    | InvalidTag        // cryptography.exceptions.InvalidTag

  /** The fields of a body: what lines 182-185 of the source slice out of it. */
  function Split(t: MessageType, body: Bytes): Frame
    requires |body| >= MIN_FRAME_SIZE - HMAC_DIGEST_SIZE
  {
    Frame(t, body[1..17], body[17..29], body[29..])
  }

  /** The framing stage of recv_frame on the bytes `s` that arrive before the
      peer closes: the frame or error, and how many bytes were read. */
  function Scan(c: Crypto, macKey: Bytes, s: Bytes): (r: (Result<Frame, RecvError>, nat))
    ensures r.1 <= |s|
  {
    if |s| < HEADER_SIZE then (Err(Closed), |s|) else
    var total := Unpack(s[..HEADER_SIZE]);
    if total > MAX_FRAME_SIZE then (Err(TooLarge), HEADER_SIZE)
    else if total < MIN_FRAME_SIZE then (Err(TooSmall), HEADER_SIZE)
    else if |s| < HEADER_SIZE + total then (Err(Closed), |s|)
    else (Check(c, macKey, s[HEADER_SIZE..HEADER_SIZE + total]), HEADER_SIZE + total)
  }

  /** Verification and parsing of the bytes that follow the header. */
  function Check(c: Crypto, macKey: Bytes, raw: Bytes): Result<Frame, RecvError>
    requires |raw| >= MIN_FRAME_SIZE
  {
    var body := raw[..|raw| - HMAC_DIGEST_SIZE];
    if c.mac(body, macKey) != raw[|raw| - HMAC_DIGEST_SIZE..] then Err(BadMac)
    else match TypeOf(body[0])
      case None => Err(UnknownType)
      case Some(t) => Ok(Split(t, body))
  }

  function Decrypt(c: Crypto, enc: Option<Bytes>, f: Frame): Result<Message, RecvError>
    requires f.Fits()
  {
    if enc.None? then Ok(Message(f.typ, f.sid, f.payload))
    else if |enc.value| != AES_KEY_SIZE then Err(BadDecKey)
    else match c.open(enc.value, f.nonce, f.payload)
      case None => Err(InvalidTag)
      case Some(p) => Ok(Message(f.typ, f.sid, p))
  }

  /** All of recv_frame on a stream that ends where `s` ends. */
  function Receive(c: Crypto, keys: Keys, s: Bytes): (r: (Result<Message, RecvError>, nat))
    ensures r.1 <= |s|
  {
    var (scanned, used) := Scan(c, keys.MacKey(), s);
    match scanned
    case Err(e) => (Err(e), used)
    case Ok(f) =>
      ScannedFits(c, keys.MacKey(), s);
      (Decrypt(c, keys.enc, f), used)
  }

  lemma ScannedFits(c: Crypto, macKey: Bytes, s: Bytes)
    ensures Scan(c, macKey, s).0.Ok? ==> Scan(c, macKey, s).0.value.Fits()
  {
  }

  // ---------------------------------------------------------------------
  // Printer and parser are mutual inverses
  // ---------------------------------------------------------------------

  lemma SplitBody(f: Frame)
    requires f.Fits()
    ensures |f.Body()| == MIN_FRAME_SIZE - HMAC_DIGEST_SIZE + |f.payload|
    ensures f.Body()[0] == Code(f.typ) && Split(f.typ, f.Body()) == f
  {
  }

  lemma BodySplit(t: MessageType, body: Bytes)
    requires |body| >= MIN_FRAME_SIZE - HMAC_DIGEST_SIZE && body[0] == Code(t)
    ensures Split(t, body).Body() == body
  {
    assert body == [body[0]] + body[1..17] + body[17..29] + body[29..];
  }

  lemma CodeInjective(t: MessageType, u: MessageType)
    requires Code(t) == Code(u)
    ensures t == u
  {
  }

  /** Whatever follows it, a printed frame is scanned back. */
  lemma ScanPrint(c: Crypto, macKey: Bytes, f: Frame, rest: Bytes)
    requires f.Fits()
    ensures Scan(c, macKey, Print(c, macKey, f) + rest) == (Ok(f), |Print(c, macKey, f)|)
  {
    var body := f.Body();
    var mac := c.mac(body, macKey);
    var s := Print(c, macKey, f) + rest;
    SplitBody(f);
    UnpackPack(|body| + HMAC_DIGEST_SIZE);
    assert s[..HEADER_SIZE] == Pack(|body| + HMAC_DIGEST_SIZE);
    var raw := s[HEADER_SIZE..HEADER_SIZE + |body| + HMAC_DIGEST_SIZE];
    assert raw == body + mac;
    assert raw[..|body|] == body && raw[|body|..] == mac;
    CodeInjective(f.typ, TypeOf(body[0]).value);
  }

  /** Whatever is scanned was printed: the fields give back the same bytes. */
  lemma PrintScan(c: Crypto, macKey: Bytes, s: Bytes)
    requires Scan(c, macKey, s).0.Ok?
    ensures var (r, used) := Scan(c, macKey, s);
            r.value.Fits() && Print(c, macKey, r.value) == s[..used]
  {
    var total := Unpack(s[..HEADER_SIZE]);
    var raw := s[HEADER_SIZE..HEADER_SIZE + total];
    var body := raw[..total - HMAC_DIGEST_SIZE];
    var t := TypeOf(body[0]).value;
    BodySplit(t, body);
    PackUnpack(s[..HEADER_SIZE]);
    assert raw == body + raw[total - HMAC_DIGEST_SIZE..];
    assert s[..HEADER_SIZE + total] == s[..HEADER_SIZE] + raw;
  }

  /** The framing stage accepts exactly the printed frames, and reads exactly one. */
  lemma ScanAcceptsExactlyPrinted(c: Crypto, macKey: Bytes, s: Bytes, f: Frame, n: nat)
    ensures Scan(c, macKey, s) == (Ok(f), n)
            <==> n <= |s| && f.Fits() && s[..n] == Print(c, macKey, f)
  {
    if Scan(c, macKey, s) == (Ok(f), n) {
      PrintScan(c, macKey, s);
    }
    if n <= |s| && f.Fits() && s[..n] == Print(c, macKey, f) {
      ScanPrint(c, macKey, f, s[n..]);
      assert s[..n] + s[n..] == s;
    }
  }

  /** What recv_frame returns for what send_frame wrote under the same keys. */
  lemma RoundTrip(c: Crypto, keys: Keys, m: Message, nonce: Nonce, rest: Bytes)
    requires c.Sound()
    requires Encode(c, keys, m, nonce).Ok?
    ensures var wire := Encode(c, keys, m, nonce).value;
            Receive(c, keys, wire + rest) == (Ok(m), |wire|)
  {
    var f := Build(c, keys, m, nonce).value;
    ScanPrint(c, keys.MacKey(), f, rest);
    ScannedFits(c, keys.MacKey(), Print(c, keys.MacKey(), f) + rest);
  }

  // ---------------------------------------------------------------------
  // The bytes on the wire
  // ---------------------------------------------------------------------

  /** The HMAC key in use: the caller's, or 32 zero bytes if it gave none or an
      empty one. */
  lemma MacKeyInUse(keys: Keys)
    ensures forall k | keys.mac == Some(k) && k != [] :: keys.MacKey() == k
    ensures keys.mac == None || keys.mac == Some([]) ==>
              |keys.MacKey()| == 32 && forall i | 0 <= i < 32 :: keys.MacKey()[i] == 0
  {
  }

  /** The one-byte codes of the message types. */
  ghost predicate OnWire(t: MessageType, b: byte) {
    || (t.ClientHello? && b == 0x01) || (t.ServerHello? && b == 0x02)
    || (t.ClientResponse? && b == 0x03) || (t.ServerDone? && b == 0x04)
    || (t.DataRequest? && b == 0x10) || (t.DataResponse? && b == 0x11)
    || (t.Error? && b == 0xFF)
  }

  /** The first four bytes say, most significant first, how many bytes follow. */
  ghost predicate Counts(s: Bytes, n: int) {
    && 4 <= |s|
    && s[0] as int * 16777216 + s[1] as int * 65536 + s[2] as int * 256 + s[3] as int == n
  }

  /** Everything about the bytes of a frame, field by field: the length, the
      type, the session id, the GCM nonce with the sealed payload or zeros with
      the clear one, and the HMAC of all but the length under the key in use. */
  lemma WireLayout(c: Crypto, keys: Keys, m: Message, nonce: Nonce)
    requires Encode(c, keys, m, nonce).Ok?
    ensures var wire := Encode(c, keys, m, nonce).value;
            var n := |wire|;
            && 65 <= n <= 4 + 16 * 1024 * 1024
            && Counts(wire, n - 4)
            && OnWire(m.typ, wire[4])
            && wire[5..21] == m.sid
            && (keys.enc == None ==> (forall k | 21 <= k < 33 :: wire[k] == 0) && wire[33..n - 32] == m.payload)
            && (forall e | keys.enc == Some(e) :: wire[21..33] == nonce && wire[33..n - 32] == c.seal(e, nonce, m.payload))
            && (forall k | keys.mac == Some(k) && k != [] :: wire[n - 32..] == c.mac(wire[4..n - 32], k))
            && (keys.mac == None || keys.mac == Some([]) ==> wire[n - 32..] == c.mac(wire[4..n - 32], seq(32, _ => 0)))
  {
    var f := Build(c, keys, m, nonce).value;
    var wire := Encode(c, keys, m, nonce).value;
    PrintedLayout(c, keys.MacKey(), f);
    assert forall k | 21 <= k < 33 :: wire[k] == wire[21..33][k - 21];
    assert Zeros(32) == seq(32, _ => 0);
  }

  lemma PrintedLayout(c: Crypto, macKey: Bytes, f: Frame)
    requires f.Fits()
    ensures var wire := Print(c, macKey, f);
            var n := |wire|;
            && n == 65 + |f.payload|
            && Counts(wire, n - 4)
            && OnWire(f.typ, wire[4])
            && wire[5..21] == f.sid && wire[21..33] == f.nonce && wire[33..n - 32] == f.payload
            && wire[n - 32..] == c.mac(wire[4..n - 32], macKey)
  {
    var wire, body := Print(c, macKey, f), f.Body();
    var n := |wire|;
    SplitBody(f);
    UnpackPack(|body| + HMAC_DIGEST_SIZE);
    assert wire[..4] == Pack(|body| + HMAC_DIGEST_SIZE);
    assert forall k | 0 <= k < 4 :: wire[k] == wire[..4][k];
    assert wire[4..n - 32] == body;
    assert wire[5..21] == body[1..17] && wire[21..33] == body[17..29] && wire[33..n - 32] == body[29..];
    assert wire[4] == body[0];
  }

  /** Which messages can be sent at all, and the error of the others. */
  lemma EncodeSucceeds(c: Crypto, keys: Keys, m: Message, nonce: Nonce)
    ensures var r := Encode(c, keys, m, nonce);
            var field := if keys.enc.Some? then c.seal(keys.enc.value, nonce, m.payload) else m.payload;
            && (r.Ok? <==> |m.sid| == 16 && (keys.enc.Some? ==> |keys.enc.value| == 32) && |field| <= 16 * 1024 * 1024 - 61)
            && (r == Err(BadSessionId) <==> |m.sid| != 16)
            && (r == Err(BadEncKey) <==> |m.sid| == 16 && keys.enc.Some? && |keys.enc.value| != 32)
  {
  }

  /** A byte string starts with a frame of n bytes that carries m: its length
      field, HMAC and type are good and its payload is m's, decrypted if there
      is a key. */
  ghost predicate Carried(c: Crypto, keys: Keys, s: Bytes, m: Message, n: nat) {
    && 65 <= n <= |s| && n - 4 <= 16 * 1024 * 1024 && Counts(s, n - 4)
    && (forall k | keys.mac == Some(k) && k != [] :: s[n - 32..n] == c.mac(s[4..n - 32], k))
    && (keys.mac == None || keys.mac == Some([]) ==> s[n - 32..n] == c.mac(s[4..n - 32], seq(32, _ => 0)))
    && OnWire(m.typ, s[4]) && m.sid == s[5..21]
    && (keys.enc == None ==> m.payload == s[33..n - 32])
    && (forall e | keys.enc == Some(e) :: |e| == 32 && c.open(e, s[21..33], s[33..n - 32]) == Some(m.payload))
  }

  /** recv_frame returns m after n bytes exactly if the stream starts so. */
  lemma ReceiveAcceptsExactly(c: Crypto, keys: Keys, s: Bytes, m: Message, n: nat)
    ensures Receive(c, keys, s) == (Ok(m), n) <==> Carried(c, keys, s, m, n)
  {
    hide Carried, Receive;
    if Receive(c, keys, s) == (Ok(m), n) {
      ReceivedIsCarried(c, keys, s, m, n);
    }
    if Carried(c, keys, s, m, n) {
      CarriedIsReceived(c, keys, s, m, n);
    }
  }

  /** How anything else fails, and how much of the stream is gone then: a length
      out of range before its body is read, a stream that ends too soon, then
      HMAC, type, key length and GCM tag in this order. */
  lemma Rejections(c: Crypto, keys: Keys, s: Bytes, total: int)
    requires 4 <= |s| ==> Counts(s, total)
    ensures var r := Receive(c, keys, s);
            if |s| < 4 then r == (Err(Closed), |s|)
            else if total > 16 * 1024 * 1024 then r == (Err(TooLarge), 4)
            else if total < 61 then r == (Err(TooSmall), 4)
            else if |s| < 4 + total then r == (Err(Closed), |s|)
            else
              && r.1 == 4 + total
              && (r.0 == Err(BadMac) <==> s[total - 28..4 + total] != c.mac(s[4..total - 28], keys.MacKey()))
              && (r.0 == Err(UnknownType) ==> forall t :: !OnWire(t, s[4]))
              && (r.0 == Err(BadDecKey) ==> keys.enc.Some? && |keys.enc.value| != 32)
              && (r.0 == Err(InvalidTag) ==> keys.enc.Some? && c.open(keys.enc.value, s[21..33], s[33..total - 28]) == None)
              && (r.0.Ok? || r.0 == Err(BadMac) || r.0 == Err(UnknownType) || r.0 == Err(BadDecKey) || r.0 == Err(InvalidTag))
  {
    hide Unpack, Counts;
    if 4 <= |s| {
      HeaderValue(s, total);
      if 61 <= total <= 16 * 1024 * 1024 && 4 + total <= |s| {
        BodySlices(s, 4 + total);
        forall t
          ensures TypeOf(s[4]) == Some(t) <==> OnWire(t, s[4])
        {
          TypeOnWire(t, s[4]);
        }
      }
    }
  }

  lemma HeaderValue(s: Bytes, total: int)
    requires 4 <= |s| && Counts(s, total)
    ensures Unpack(s[..HEADER_SIZE]) == total
  {
    var h := s[..4];
    assert h[0] == s[0] && h[1] == s[1] && h[2] == s[2] && h[3] == s[3];
  }

  /** The slices of the bytes after the header are slices of the frame. */
  lemma BodySlices(s: Bytes, n: nat)
    requires 65 <= n <= |s|
    ensures var raw := s[HEADER_SIZE..n];
            var body := raw[..|raw| - HMAC_DIGEST_SIZE];
            && |raw| == n - 4
            && body == s[4..n - 32] && raw[|raw| - HMAC_DIGEST_SIZE..] == s[n - 32..n]
            && body[0] == s[4] && body[1..17] == s[5..21] && body[17..29] == s[21..33] && body[29..] == s[33..n - 32]
  {
    var raw := s[HEADER_SIZE..n];
    assert raw[..|raw| - HMAC_DIGEST_SIZE] == s[4..n - 32];
    assert raw[|raw| - HMAC_DIGEST_SIZE..] == s[n - 32..n];
    SliceOfSlice(s, 4, n - 32, 1, 17);
    SliceOfSlice(s, 4, n - 32, 17, 29);
    assert s[4..n - 32][29..] == s[33..n - 32];
  }

  lemma SliceOfSlice(s: Bytes, a: nat, b: nat, x: nat, y: nat)
    requires a <= b <= |s| && x <= y <= b - a
    ensures s[a..b][x..y] == s[a + x..a + y]
  {
    var t, u := s[a..b][x..y], s[a + x..a + y];
    assert forall k | 0 <= k < y - x :: t[k] == s[a..b][x + k] && u[k] == s[a + x + k];
  }

  lemma ReceivedIsCarried(c: Crypto, keys: Keys, s: Bytes, m: Message, n: nat)
    requires Receive(c, keys, s) == (Ok(m), n)
    ensures Carried(c, keys, s, m, n)
  {
    var f := Scan(c, keys.MacKey(), s).0.value;
    ScannedFits(c, keys.MacKey(), s);
    PrintScan(c, keys.MacKey(), s);
    PrintedLayout(c, keys.MacKey(), f);
    SamePrefix(s, Print(c, keys.MacKey(), f), n);
    assert Zeros(32) == seq(32, _ => 0);
  }

  lemma SamePrefix(s: Bytes, wire: Bytes, n: nat)
    requires 65 <= n <= |s| && s[..n] == wire
    ensures s[4..n - 32] == wire[4..n - 32] && s[n - 32..n] == wire[n - 32..]
    ensures s[5..21] == wire[5..21] && s[21..33] == wire[21..33] && s[33..n - 32] == wire[33..n - 32]
    ensures forall k | 0 <= k < 5 :: s[k] == wire[k]
  {
  }

  lemma CarriedIsReceived(c: Crypto, keys: Keys, s: Bytes, m: Message, n: nat)
    requires Carried(c, keys, s, m, n)
    ensures Receive(c, keys, s) == (Ok(m), n)
  {
    hide Unpack;
    HeaderValue(s, n - 4);
    BodySlices(s, n);
    assert Zeros(32) == seq(32, _ => 0);
    TypeOnWire(m.typ, s[4]);
    ScannedFits(c, keys.MacKey(), s);
  }

  lemma TypeOnWire(t: MessageType, b: byte)
    ensures TypeOf(b) == Some(t) <==> OnWire(t, b)
  {
  }

  // ---------------------------------------------------------------------
  // Truncation and unique decodability
  // ---------------------------------------------------------------------

  /** A stream that ends inside a frame is reported as closed, whatever the key. */
  lemma CutIsClosed(c: Crypto, macKey: Bytes, readKey: Bytes, f: Frame, k: nat)
    requires f.Fits() && k < |Print(c, macKey, f)|
    ensures Scan(c, readKey, Print(c, macKey, f)[..k]) == (Err(Closed), k)
  {
    var wire := Print(c, macKey, f);
    SplitBody(f);
    if k >= HEADER_SIZE {
      assert wire[..k][..HEADER_SIZE] == Pack(|f.Body()| + HMAC_DIGEST_SIZE);
      UnpackPack(|f.Body()| + HMAC_DIGEST_SIZE);
    }
  }

  /** No frame is a proper prefix of another, even under different MAC keys. */
  lemma PrefixFree(c: Crypto, macKey: Bytes, otherKey: Bytes, f: Frame, g: Frame)
    requires f.Fits() && g.Fits()
    requires Print(c, macKey, f) <= Print(c, otherKey, g)
    ensures Print(c, macKey, f) == Print(c, otherKey, g) && f == g
  {
    var a, b := Print(c, macKey, f), Print(c, otherKey, g);
    SplitBody(f);
    SplitBody(g);
    assert a[..HEADER_SIZE] == b[..HEADER_SIZE];
    UnpackPack(|f.Body()| + HMAC_DIGEST_SIZE);
    UnpackPack(|g.Body()| + HMAC_DIGEST_SIZE);
    assert a[..HEADER_SIZE] == Pack(|f.Body()| + HMAC_DIGEST_SIZE);
    assert b[..HEADER_SIZE] == Pack(|g.Body()| + HMAC_DIGEST_SIZE);
    assert |a| == |b|;
    assert f.Body() == a[HEADER_SIZE..HEADER_SIZE + |f.Body()|];
    assert g.Body() == b[HEADER_SIZE..HEADER_SIZE + |g.Body()|];
    CodeInjective(f.typ, g.typ);
  }

  /** Frames written back to back, each under its own MAC key. */
  function PrintAll(c: Crypto, fs: seq<(Bytes, Frame)>): Bytes
    requires forall i | 0 <= i < |fs| :: fs[i].1.Fits()
  {
    if fs == [] then [] else Print(c, fs[0].0, fs[0].1) + PrintAll(c, fs[1..])
  }

  lemma PrintNonEmpty(c: Crypto, fs: seq<(Bytes, Frame)>)
    requires forall i | 0 <= i < |fs| :: fs[i].1.Fits()
    ensures fs != [] ==> PrintAll(c, fs) != []
  {
  }

  /** A concatenation of frames splits in one way only. */
  lemma {:induction false} UniqueSplit(c: Crypto, fs: seq<(Bytes, Frame)>, gs: seq<(Bytes, Frame)>)
    requires forall i | 0 <= i < |fs| :: fs[i].1.Fits()
    requires forall i | 0 <= i < |gs| :: gs[i].1.Fits()
    requires PrintAll(c, fs) == PrintAll(c, gs)
    ensures |fs| == |gs|
    ensures forall i | 0 <= i < |fs| :: fs[i].1 == gs[i].1
  {
    hide Print;
    PrintNonEmpty(c, fs);
    PrintNonEmpty(c, gs);
    if fs != [] && gs != [] {
      var a, b := Print(c, fs[0].0, fs[0].1), Print(c, gs[0].0, gs[0].1);
      var x, y := PrintAll(c, fs[1..]), PrintAll(c, gs[1..]);
      assert a + x == b + y;
      if |a| <= |b| {
        assert a == (b + y)[..|a|] == b[..|a|];
        PrefixFree(c, fs[0].0, gs[0].0, fs[0].1, gs[0].1);
      } else {
        assert b == (a + x)[..|b|] == a[..|b|];
        PrefixFree(c, gs[0].0, fs[0].0, gs[0].1, fs[0].1);
      }
      assert x == (a + x)[|a|..] == y;
      UniqueSplit(c, fs[1..], gs[1..]);
      forall i | 0 <= i < |fs|
        ensures fs[i].1 == gs[i].1
      {
        if i > 0 {
          assert fs[1..][i - 1].1 == gs[1..][i - 1].1;
        }
      }
    }
  }

  // ---------------------------------------------------------------------
  // A stream of frames is a message queue
  // ---------------------------------------------------------------------

  /** One call of send_frame. */
  datatype Sending = Sending(keys: Keys, message: Message, nonce: Nonce)

  function Wire(c: Crypto, sends: seq<Sending>): Bytes
    requires AllEncode(c, sends)
  {
    if sends == [] then [] else FirstFrame(c, sends) + Wire(c, sends[1..])
  }

  datatype Drained = Drained(messages: seq<Message>, error: Option<RecvError>, unread: Bytes)

  /** Repeated recv_frame, one call per entry of `keys`, up to the first error:
      the messages, that error, and the bytes not read. */
  function Drain(c: Crypto, keys: seq<Keys>, s: Bytes): Drained {
    if keys == [] then Drained([], None, s) else
    var (r, used) := Receive(c, keys[0], s);
    match r
    case Err(e) => Drained([], Some(e), s[used..])
    case Ok(m) =>
      var d := Drain(c, keys[1..], s[used..]);
      d.(messages := [m] + d.messages)
  }

  function KeysOf(sends: seq<Sending>): (ks: seq<Keys>)
    ensures |ks| == |sends|
  {
    seq(|sends|, i requires 0 <= i < |sends| => sends[i].keys)
  }

  function MessagesOf(sends: seq<Sending>): (ms: seq<Message>)
    ensures |ms| == |sends|
  {
    seq(|sends|, i requires 0 <= i < |sends| => sends[i].message)
  }

  ghost predicate AllEncode(c: Crypto, sends: seq<Sending>) {
    forall i | 0 <= i < |sends| :: Encode(c, sends[i].keys, sends[i].message, sends[i].nonce).Ok?
  }

  /** `n` of the frames sent arrived whole: the bytes delivered hold them, and
      no more than part of the next one. */
  ghost predicate Arrived(c: Crypto, sends: seq<Sending>, delivered: Bytes, n: nat)
    requires AllEncode(c, sends)
  {
    && n <= |sends|
    && Wire(c, sends[..n]) <= delivered
    && (n < |sends| ==> |delivered| < |Wire(c, sends[..n + 1])|)
  }

  /** What the receiver has seen once the first n messages arrived. */
  function Outcome(sends: seq<Sending>, n: nat): Drained
    requires n <= |sends|
  {
    Drained(MessagesOf(sends)[..n], if n == |sends| then None else Some(Closed), [])
  }

  function FirstFrame(c: Crypto, sends: seq<Sending>): Bytes
    requires AllEncode(c, sends) && sends != []
  {
    Encode(c, sends[0].keys, sends[0].message, sends[0].nonce).value
  }

  lemma WireCons(c: Crypto, sends: seq<Sending>, n: nat)
    requires AllEncode(c, sends) && 0 < n <= |sends|
    ensures AllEncode(c, sends[1..])
    ensures Wire(c, sends[..n]) == FirstFrame(c, sends) + Wire(c, sends[1..][..n - 1])
  {
    assert sends[..n][1..] == sends[1..][..n - 1];
  }

  /** Reading any delivered prefix of the wire gives exactly the messages whose
      frames arrived whole, in order, and leaves no byte: then `Closed` if
      the wire was cut short, and all messages without error if it was not. */
  lemma {:induction false} DrainIsQueue(c: Crypto, sends: seq<Sending>, delivered: Bytes) returns (n: nat)
    requires c.Sound() && AllEncode(c, sends)
    requires delivered <= Wire(c, sends)
    ensures Arrived(c, sends, delivered, n)
    ensures n == |sends| <==> delivered == Wire(c, sends)
    ensures Drain(c, KeysOf(sends), delivered) == Outcome(sends, n)
    decreases |sends|
  {
    hide Receive, Encode, Drain, Outcome;
    if sends == [] {
      n := 0;
      assert sends[..0] == [];
      DrainNothing(c, sends);
    } else {
      var wire := FirstFrame(c, sends);
      assert Wire(c, sends) == wire + Wire(c, sends[1..]);
      if |wire| <= |delivered| {
        var tail := delivered[|wire|..];
        DropPrefix(wire, Wire(c, sends[1..]), delivered);
        var k := DrainIsQueue(c, sends[1..], tail);
        n := k + 1;
        RoundTrip(c, sends[0].keys, sends[0].message, sends[0].nonce, tail);
        assert KeysOf(sends)[1..] == KeysOf(sends[1..]);
        DrainStep(c, KeysOf(sends), delivered, tail, sends, k);
        ArrivedStep(c, sends, tail, k);
      } else {
        n := 0;
        TakePrefix(wire, Wire(c, sends[1..]), delivered);
        DrainCut(c, sends, |delivered|);
        WireCons(c, sends, 1);
      }
    }
  }

  lemma DrainNothing(c: Crypto, sends: seq<Sending>)
    requires sends == []
    ensures Drain(c, KeysOf(sends), []) == Outcome(sends, 0)
  {
  }

  lemma DropPrefix(a: Bytes, b: Bytes, s: Bytes)
    requires s <= a + b && |a| <= |s|
    ensures s == a + s[|a|..] && s[|a|..] <= b
    ensures s == a + b <==> s[|a|..] == b
  {
  }

  lemma TakePrefix(a: Bytes, b: Bytes, s: Bytes)
    requires s <= a + b && |s| < |a|
    ensures s == a[..|s|] && s != a + b
  {
  }

  lemma DrainCut(c: Crypto, sends: seq<Sending>, k: nat)
    requires AllEncode(c, sends) && sends != []
    requires k < |FirstFrame(c, sends)|
    ensures Drain(c, KeysOf(sends), FirstFrame(c, sends)[..k]) == Outcome(sends, 0)
  {
    var first := sends[0];
    var part := FirstFrame(c, sends)[..k];
    CutIsClosed(c, first.keys.MacKey(), first.keys.MacKey(), Build(c, first.keys, first.message, first.nonce).value, k);
    assert Receive(c, KeysOf(sends)[0], part) == (Err(Closed), k);
    assert part[k..] == [];
  }

  lemma DrainStep(c: Crypto, keys: seq<Keys>, s: Bytes, tail: Bytes, sends: seq<Sending>, k: nat)
    requires keys != [] && sends != []
    requires |tail| <= |s| && s[|s| - |tail|..] == tail
    requires Receive(c, keys[0], s) == (Ok(sends[0].message), |s| - |tail|)
    requires k <= |sends[1..]| && Drain(c, keys[1..], tail) == Outcome(sends[1..], k)
    ensures Drain(c, keys, s) == Outcome(sends, k + 1)
  {
    hide Receive;
    assert MessagesOf(sends)[..k + 1] == [sends[0].message] + MessagesOf(sends[1..])[..k];
  }

  lemma ArrivedStep(c: Crypto, sends: seq<Sending>, tail: Bytes, k: nat)
    requires AllEncode(c, sends) && sends != [] && AllEncode(c, sends[1..])
    requires Arrived(c, sends[1..], tail, k)
    ensures Arrived(c, sends, FirstFrame(c, sends) + tail, k + 1)
  {
    WireCons(c, sends, k + 1);
    if k + 1 < |sends| {
      WireCons(c, sends, k + 2);
    }
  }
}
