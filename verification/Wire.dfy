/** One frame per datagram: [type][2-byte length][payload]. */
module Record {
  import opened Wrappers
  import opened Noise
  import opened BigEndian

  const TYPE_HS1: byte := 1
  const TYPE_HS2: byte := 2
  const TYPE_HS3: byte := 3
  const TYPE_PROBE: byte := 4
  const TYPE_DATA: byte := 5
  const HEADER_LEN := 3
  const MAX_PAYLOAD_LEN := 65535

  datatype Error = TooShort | Oversized | Trailing

  /** A longer payload is a programming error. */
  function Frame(t: byte, payload: Bytes): Bytes
    requires |payload| <= MAX_PAYLOAD_LEN
  {
    [t] + PutU16(|payload|) + payload
  }

  function Parse(datagram: Bytes): Result<(byte, Bytes), Error> {
    if |datagram| < HEADER_LEN then Err(TooShort)
    else
      var n := GetU16(datagram[1..3]);
      if n > |datagram| - HEADER_LEN then Err(Oversized)
      else if |datagram| > HEADER_LEN + n then Err(Trailing)
      else Ok((datagram[0], datagram[HEADER_LEN..HEADER_LEN + n]))
  }

  /** Parse accepts exactly the frames, and gives back what was framed. */
  lemma ParseExactly(datagram: Bytes, t: byte, payload: Bytes)
    ensures Parse(datagram) == Ok((t, payload))
       <==> |payload| <= MAX_PAYLOAD_LEN && datagram == Frame(t, payload)
  {
    if |payload| <= MAX_PAYLOAD_LEN {
      RoundTrip16(|payload|, []);
      assert PutU16(|payload|) + [] == PutU16(|payload|);
      assert Frame(t, payload)[1..3] == PutU16(|payload|);
      assert Frame(t, payload)[HEADER_LEN..HEADER_LEN + |payload|] == payload;
    }
    if Parse(datagram) == Ok((t, payload)) {
      var len := datagram[1..3];
      RoundTrip16(0, len);
      assert len[..2] == len;
      assert payload == datagram[3..] && t == datagram[0];
      assert |payload| == GetU16(len) && PutU16(|payload|) == len;
      assert datagram == [t] + len + payload;
    }
  }

  lemma FrameFields(t: byte, payload: Bytes)
    requires |payload| <= MAX_PAYLOAD_LEN
    ensures |Frame(t, payload)| == HEADER_LEN + |payload| && GetU16(Frame(t, payload)[1..3]) == |payload|
  {
    RoundTrip16(|payload|, []);
    assert PutU16(|payload|) + [] == PutU16(|payload|);
    assert Frame(t, payload)[1..3] == PutU16(|payload|);
  }

  /** The bytes of a frame: its type, the payload's length in network byte order, the payload. */
  lemma FrameLayout(t: byte, payload: Bytes) returns (n: Bytes)
    requires |payload| <= 65535
    ensures Frame(t, payload) == [t] + n + payload && |n| == 2 && Value(n) == |payload|
  {
    n := PutU16(|payload|);
    NetworkOrder([], |payload|);
  }

  /** A frame that lost its end or gained bytes is refused, with the error that says which. */
  lemma DamagedFrame(t: byte, payload: Bytes, cut: nat, extra: Bytes)
    requires |payload| <= MAX_PAYLOAD_LEN && cut < |Frame(t, payload)| && extra != []
    ensures Parse(Frame(t, payload)[..cut]) == Err(if cut < HEADER_LEN then TooShort else Oversized)
    ensures Parse(Frame(t, payload) + extra) == Err(Trailing)
  {
    var frame := Frame(t, payload);
    FrameFields(t, payload);
    if cut >= HEADER_LEN { assert frame[..cut][1..3] == frame[1..3]; }
    assert (frame + extra)[1..3] == frame[1..3];
  }
}

/** The relay header: [magic][2-byte length][source][2-byte length][destination][frame]. */
module RelayCodec {
  import opened Wrappers
  import opened Noise
  import opened BigEndian

  const MAGIC: byte := 0x52
  const MAX_NAME_LEN := 64
  const MAX_HEADER_LEN := 1 + 2 + MAX_NAME_LEN + 2 + MAX_NAME_LEN

  datatype Error = EmptyName | NameTooLong | ShortPacket | BadMagic | Truncated

  datatype Packet = Packet(src: Bytes, dst: Bytes, frame: Bytes)

  function ValidateName(id: Bytes): Option<Error> {
    if id == [] then Some(EmptyName) else if |id| > MAX_NAME_LEN then Some(NameTooLong) else None
  }

  function WrapPacket(p: Packet): Result<Bytes, Error> {
    match ValidateName(p.src)
    case Some(e) => Err(e)
    case None =>
      match ValidateName(p.dst)
      case Some(e) => Err(e)
      case None => Ok([MAGIC] + PutU16(|p.src|) + p.src + PutU16(|p.dst|) + p.dst + p.frame)
  }

  function ParsePacket(pkt: Bytes): Result<Packet, Error> {
    if |pkt| < 7 then Err(ShortPacket)
    else if pkt[0] != MAGIC then Err(BadMagic)
    else
      var p := pkt[1..];
      var srcLen := GetU16(p[..2]);
      var p := p[2..];
      if srcLen == 0 then Err(EmptyName)
      else if srcLen > MAX_NAME_LEN then Err(NameTooLong)
      else if |p| < srcLen + 2 then Err(Truncated)
      else
        var src := p[..srcLen];
        var p := p[srcLen..];
        var dstLen := GetU16(p[..2]);
        var p := p[2..];
        if dstLen == 0 then Err(EmptyName)
        else if dstLen > MAX_NAME_LEN then Err(NameTooLong)
        else if |p| < dstLen then Err(Truncated)
        else Ok(Packet(src, p[..dstLen], p[dstLen..]))
  }

  /** Splitting a length-prefixed name off a byte string is the inverse of prefixing it. */
  lemma NameField(name: Bytes, more: Bytes)
    requires |name| < 0x1_0000
    ensures var p := PutU16(|name|) + name + more;
            GetU16(p[..2]) == |name| && p[2..][..|name|] == name && p[2..][|name|..] == more
  {
    RoundTrip16(|name|, []);
    var p := PutU16(|name|) + name + more;
    assert PutU16(|name|) + [] == PutU16(|name|) == p[..2];
    assert p[2..] == name + more;
  }

  lemma FieldName(p: Bytes, n: nat)
    requires |p| >= 2 + n && n == GetU16(p[..2])
    ensures p == PutU16(n) + p[2..][..n] + p[2..][n..]
  {
    RoundTrip16(0, p[..2]);
    assert p[..2][..2] == p[..2];
    assert p == p[..2] + p[2..];
    assert p[2..] == p[2..][..n] + p[2..][n..];
  }

  lemma ParseOfWrap(p: Packet)
    requires WrapPacket(p).Ok?
    ensures ParsePacket(WrapPacket(p).value) == Ok(p)
  {
    var pkt := WrapPacket(p).value;
    var tail := PutU16(|p.dst|) + p.dst + p.frame;
    assert pkt[1..] == PutU16(|p.src|) + p.src + tail;
    NameField(p.src, tail);
    NameField(p.dst, p.frame);
  }

  /** What parsing takes a packet apart into. */
  lemma ParsedParts(pkt: Bytes) returns (s: Bytes, d: Bytes, f: Bytes, tail: Bytes)
    requires ParsePacket(pkt).Ok?
    ensures ParsePacket(pkt) == Ok(Packet(s, d, f)) && ValidateName(s).None? && ValidateName(d).None?
    ensures pkt == [MAGIC] + (PutU16(|s|) + s + tail) && tail == PutU16(|d|) + d + f
  {
    var p := pkt[1..];
    var srcLen := GetU16(p[..2]);
    FieldName(p, srcLen);
    s, tail := p[2..][..srcLen], p[2..][srcLen..];
    var dstLen := GetU16(tail[..2]);
    FieldName(tail, dstLen);
    d, f := tail[2..][..dstLen], tail[2..][dstLen..];
    assert pkt == [MAGIC] + p;
  }

  lemma Reassociated(a: Bytes, b: Bytes, c: Bytes, d: Bytes, e: Bytes, f: Bytes)
    ensures a + (b + c + (d + e + f)) == a + b + c + d + e + f
  {
  }

  /** A packet is wrapped exactly when both names have 1 to 64 bytes: the magic byte, the two names behind their
      lengths in network byte order, and the frame. */
  lemma WrapLayout(p: Packet) returns (n: Bytes, m: Bytes)
    ensures WrapPacket(p).Ok? <==> 1 <= |p.src| <= 64 && 1 <= |p.dst| <= 64
    ensures WrapPacket(p).Ok? ==> WrapPacket(p).value == [0x52] + n + p.src + m + p.dst + p.frame
    ensures |n| == |m| == 2
    ensures WrapPacket(p).Ok? ==> Value(n) == |p.src| && Value(m) == |p.dst|
  {
    n, m := PutU16(|p.src|), PutU16(|p.dst|);
    NetworkOrder([], |p.src|);
    NetworkOrder([], |p.dst|);
  }

  lemma WrapOfParse(pkt: Bytes)
    requires ParsePacket(pkt).Ok?
    ensures WrapPacket(ParsePacket(pkt).value) == Ok(pkt)
  {
    var s, d, f, tail := ParsedParts(pkt);
    Reassociated([MAGIC], PutU16(|s|), s, PutU16(|d|), d, f);
  }

  /** Wrap and parse are mutual inverses, so re-wrapping a parsed packet gives the received bytes. */
  lemma WrapParseInverse(p: Packet, pkt: Bytes)
    ensures ParsePacket(pkt) == Ok(p) <==> WrapPacket(p) == Ok(pkt)
  {
    if WrapPacket(p) == Ok(pkt) { ParseOfWrap(p); }
    if ParsePacket(pkt) == Ok(p) { WrapOfParse(pkt); }
  }
}

/** The one-datagram size budget of encrypted payloads on both paths. */
module WireBudget {
  import opened Wrappers
  import opened Noise
  import opened BigEndian
  import Record
  import RelayCodec

  const MAX_UDP_PAYLOAD := 65507
  const NONCE_LEN := 8
  const AEAD_TAG := 16
  const MAX_PLAINTEXT_LEN := MAX_UDP_PAYLOAD - Record.HEADER_LEN - NONCE_LEN - AEAD_TAG

  datatype Path = NoPath | Direct | Relay

  /** The plaintext limit on the path established data flows over. */
  function Limit(path: Path): int {
    if path == Relay then MAX_PLAINTEXT_LEN - RelayCodec.MAX_HEADER_LEN else MAX_PLAINTEXT_LEN
  }

  function DataFrame(nonce: Uint64, ct: Bytes): Bytes
    requires NONCE_LEN + |ct| <= Record.MAX_PAYLOAD_LEN
  {
    Record.Frame(Record.TYPE_DATA, PutU64(nonce) + ct)
  }

  /** What the receiver takes out of a DATA datagram. */
  function Unnest(datagram: Bytes): Option<(Uint64, Bytes)> {
    match Record.Parse(datagram)
    case Err(_) => None
    case Ok(f) =>
      if f.0 == Record.TYPE_DATA && |f.1| >= NONCE_LEN then Some((GetU64(f.1), f.1[NONCE_LEN..])) else None
  }

  /** A ciphertext for a payload within the limit never trips the frame ceiling, fits one datagram
      wrapped or not, and comes out at the receiver with the same nonce and bytes. */
  lemma FitsOneDatagram(path: Path, text: Bytes, nonce: Uint64, ct: Bytes, src: Bytes, dst: Bytes)
    requires |text| <= Limit(path) && |ct| == |text| + AEAD_TAG
    ensures NONCE_LEN + |ct| <= Record.MAX_PAYLOAD_LEN
    ensures var d := DataFrame(nonce, ct);
            && |d| <= MAX_UDP_PAYLOAD && (|d| == MAX_UDP_PAYLOAD <==> |text| == MAX_PLAINTEXT_LEN)
            && Unnest(d) == Some((nonce, ct))
    ensures path == Relay && RelayCodec.ValidateName(src).None? && RelayCodec.ValidateName(dst).None? ==>
              var d := DataFrame(nonce, ct);
              var w := RelayCodec.WrapPacket(RelayCodec.Packet(src, dst, d));
              w.Ok? && |w.value| <= MAX_UDP_PAYLOAD
              && (|w.value| == MAX_UDP_PAYLOAD <==>
                    |text| == Limit(Relay) && |src| == |dst| == RelayCodec.MAX_NAME_LEN)
              && RelayCodec.ParsePacket(w.value) == Ok(RelayCodec.Packet(src, dst, d))
  {
    var payload := PutU64(nonce) + ct;
    Record.ParseExactly(DataFrame(nonce, ct), Record.TYPE_DATA, payload);
    RoundTrip64(nonce, ct);
    assert payload[NONCE_LEN..] == ct;
    if RelayCodec.ValidateName(src).None? && RelayCodec.ValidateName(dst).None? {
      RelayCodec.ParseOfWrap(RelayCodec.Packet(src, dst, DataFrame(nonce, ct)));
    }
  }

  /** A DATA datagram: type 5, the length, the nonce in network byte order and the ciphertext. */
  lemma DataLayout(nonce: Uint64, ct: Bytes) returns (n: Bytes, m: Bytes)
    requires 8 + |ct| <= 65535
    ensures DataFrame(nonce, ct) == [5] + n + m + ct && |n| == 2 && |m| == 8
    ensures Value(n) == 8 + |ct| && Value(m) == nonce
  {
    m := PutU64(nonce);
    n := Record.FrameLayout(Record.TYPE_DATA, m + ct);
    NetworkOrder([], nonce);
  }
}
