/** Bitwise exclusive or on naturals of a given width. */
module Xors {
  import opened Noise

  function Pow2(bits: nat): nat {
    if bits == 0 then 1 else 2 * Pow2(bits - 1)
  }

  function Xor(a: nat, b: nat, bits: nat): (x: nat)
    ensures x < Pow2(bits)
  {
    if bits == 0 then 0
    else (if a % 2 == b % 2 then 0 else 1) + 2 * Xor(a / 2, b / 2, bits - 1)
  }

  lemma {:induction false} XorTwice(a: nat, b: nat, bits: nat)
    requires a < Pow2(bits)
    ensures Xor(Xor(a, b, bits), b, bits) == a
  {
    if bits > 0 {
      XorTwice(a / 2, b / 2, bits - 1);
      var x, y := Xor(a, b, bits), Xor(a / 2, b / 2, bits - 1);
      assert x / 2 == y && (x % 2 == 0 <==> a % 2 == b % 2);
    }
  }

  /** Bit i of n, the lowest being bit 0. */
  predicate Bit(n: nat, i: nat) {
    if i == 0 then n % 2 == 1 else Bit(n / 2, i - 1)
  }

  /** Bit by bit the result is set where the arguments differ. */
  lemma {:induction false} XorBits(a: nat, b: nat, bits: nat, i: nat)
    requires i < bits
    ensures Bit(Xor(a, b, bits), i) <==> Bit(a, i) != Bit(b, i)
  {
    var x, y := Xor(a, b, bits), Xor(a / 2, b / 2, bits - 1);
    assert x / 2 == y && (x % 2 == 0 <==> a % 2 == b % 2);
    if i > 0 { XorBits(a / 2, b / 2, bits - 1, i - 1); }
  }

  lemma Widths()
    ensures Pow2(8) == 0x100 && Pow2(16) == 0x1_0000
  {
    assert Pow2(4) == 16;
    assert Pow2(8) == 16 * Pow2(4);
    assert Pow2(12) == 16 * Pow2(8);
    assert Pow2(16) == 16 * Pow2(12);
  }

  function XorByte(a: byte, b: byte): byte {
    Widths();
    Xor(a as nat, b as nat, 8) as byte
  }

  function XorU16(a: nat, b: nat): nat { Xor(a, b, 16) }

  /** Byte by byte with the front of a key. */
  function XorWith(v: Bytes, key: Bytes): Bytes
    requires |v| <= |key|
  {
    seq(|v|, i requires 0 <= i < |v| => XorByte(v[i], key[i]))
  }

  /** Bytes and ports: every bit of the result is set exactly where the arguments' bits differ. */
  lemma XorByteBits(a: byte, b: byte, i: nat)
    requires i < 8
    ensures Bit(XorByte(a, b) as nat, i) <==> Bit(a as nat, i) != Bit(b as nat, i)
  {
    XorBits(a as nat, b as nat, 8, i);
  }

  lemma XorU16Bits(a: nat, b: nat, i: nat)
    requires i < 16
    ensures XorU16(a, b) < 0x1_0000 && (Bit(XorU16(a, b), i) <==> Bit(a, i) != Bit(b, i))
  {
    Widths();
    XorBits(a, b, 16, i);
  }

  lemma XorWithTwice(v: Bytes, key: Bytes)
    requires |v| <= |key|
    ensures XorWith(XorWith(v, key), key) == v
  {
    forall i | 0 <= i < |v| ensures XorWith(XorWith(v, key), key)[i] == v[i] {
      Widths();
      XorTwice(v[i] as nat, key[i] as nat, 8);
    }
  }
}

/** STUN binding responses: what the encoder writes and the attribute walk finds. */
module StunSpec {
  import opened Wrappers
  import opened Noise
  import opened BigEndian
  import opened Xors

  const BINDING_REQUEST := 0x0001
  const BINDING_RESPONSE := 0x0101
  const XOR_MAPPED_ADDRESS := 0x0020
  const MAGIC_COOKIE := 0x2112_A442
  const HEADER_LEN := 20
  const XOR_PORT_MASK := 0x2112

  datatype Addr = Addr(ip: Bytes, port: nat)

  datatype Error = TooShort | WrongType | BadCookie | NoSource | UnsupportedIP | TruncatedPacket
                 | TruncatedAttribute | NoMappedAddress | ValueTooShort | ReservedNonZero
                 | TruncatedAddress | UnsupportedFamily

  /** The four bytes of an IPv4 address in either of its two forms. */
  function To4(ip: Bytes): Option<Bytes> {
    if |ip| == 4 then Some(ip)
    else if |ip| == 16 && (forall i :: 0 <= i < 10 ==> ip[i] == 0) && ip[10] == 0xff && ip[11] == 0xff
        then Some(ip[12..])
    else None
  }

  function SplitAddress(ip: Bytes): Result<(byte, Bytes), Error> {
    match To4(ip)
    case Some(v4) => Ok((1, v4))
    case None => if |ip| == 16 then Ok((2, ip)) else Err(UnsupportedIP)
  }

  function Header(msgType: nat, msgLen: nat, txid: Bytes): Bytes {
    PutU16(msgType) + PutU16(msgLen) + PutU32(MAGIC_COOKIE) + txid
  }

  /** The request's complaint, if any, in the order the server looks. */
  function RequestError(pkt: Bytes, src: Option<Addr>): Option<Error> {
    if |pkt| < HEADER_LEN then Some(TooShort)
    else if GetU16(pkt) != BINDING_REQUEST then Some(WrongType)
    else if GetU32(pkt[4..8]) != MAGIC_COOKIE then Some(BadCookie)
    else if src.None? || src.value.ip == [] then Some(NoSource)
    else if SplitAddress(src.value.ip).Err? then Some(UnsupportedIP)
    else None
  }

  function MappedValue(src: Addr, key: Bytes): Bytes
    requires SplitAddress(src.ip).Ok? && |key| == 16
  {
    var fa := SplitAddress(src.ip).value;
    [0, fa.0] + PutU16(XorU16(src.port % 0x1_0000, XOR_PORT_MASK)) + XorWith(fa.1, key)
  }

  function XorKey(txid: Bytes): Bytes { PutU32(MAGIC_COOKIE) + txid }

  function Response(pkt: Bytes, src: Option<Addr>): Result<Bytes, Error> {
    if RequestError(pkt, src).Some? then Err(RequestError(pkt, src).value)
    else
      var txid := pkt[8..20];
      var v := MappedValue(src.value, XorKey(txid));
      Ok(Header(BINDING_RESPONSE, 4 + |v|, txid) + PutU16(XOR_MAPPED_ADDRESS) + PutU16(|v|) + v)
  }

  function ParseMapped(v: Bytes, key: Bytes): Result<Addr, Error>
    requires |key| == 16
  {
    if |v| < 4 then Err(ValueTooShort)
    else if v[0] != 0 then Err(ReservedNonZero)
    else
      var port := XorU16(GetU16(v[2..4]), XOR_PORT_MASK);
      if v[1] == 1 then
        if |v| < 8 then Err(TruncatedAddress) else Ok(Addr(XorWith(v[4..8], key), port))
      else if v[1] == 2 then
        if |v| < 20 then Err(TruncatedAddress) else Ok(Addr(XorWith(v[4..20], key), port))
      else Err(UnsupportedFamily)
  }

  function Padded(alen: nat): nat { (alen + 3) / 4 * 4 }

  function Walk(attrs: Bytes, key: Bytes): Result<Addr, Error>
    requires |key| == 16
    decreases |attrs|
  {
    if |attrs| < 4 then Err(NoMappedAddress)
    else
      var alen := GetU16(attrs[2..4]);
      if |attrs| < 4 + alen then Err(TruncatedAttribute)
      else if GetU16(attrs) == XOR_MAPPED_ADDRESS then ParseMapped(attrs[4..4 + alen], key)
      else if 4 + Padded(alen) > |attrs| then Err(NoMappedAddress)
      else Walk(attrs[4 + Padded(alen)..], key)
  }

  function Decoded(pkt: Bytes): Result<Addr, Error> {
    if |pkt| < HEADER_LEN then Err(TooShort)
    else if GetU16(pkt) != BINDING_RESPONSE then Err(WrongType)
    else if GetU32(pkt[4..8]) != MAGIC_COOKIE then Err(BadCookie)
    else
      var msgLen := GetU16(pkt[2..4]);
      if |pkt| < HEADER_LEN + msgLen then Err(TruncatedPacket)
      else Walk(pkt[HEADER_LEN..HEADER_LEN + msgLen], pkt[4..20])
  }

  /** A well-formed attribute; the padding bytes may hold anything. */
  datatype Attr = Attr(typ: nat, value: Bytes, pad: Bytes)

  predicate WellFormed(a: Attr) {
    a.typ < 0x1_0000 && |a.value| < 0x1_0000 && |a.pad| == Padded(|a.value|) - |a.value|
  }

  function Encode(a: Attr): Bytes { PutU16(a.typ) + PutU16(|a.value|) + a.value + a.pad }

  function EncodeAll(attrs: seq<Attr>): Bytes {
    if attrs == [] then [] else Encode(attrs[0]) + EncodeAll(attrs[1..])
  }

  /** Values are padded to the next multiple of four. */
  lemma PaddedIs(n: nat)
    ensures Padded(n) % 4 == 0 && n <= Padded(n) < n + 4
  {
  }

  lemma EncodedFields(typ: nat, value: Bytes, more: Bytes)
    requires typ < 0x1_0000 && |value| < 0x1_0000
    ensures var b := PutU16(typ) + PutU16(|value|) + value + more;
            && |b| == 4 + |value| + |more| && GetU16(b) == typ && GetU16(b[2..4]) == |value|
            && b[4..4 + |value|] == value && b[4 + |value|..] == more
  {
    var b := PutU16(typ) + PutU16(|value|) + value + more;
    RoundTrip16(typ, PutU16(|value|) + value + more);
    RoundTrip16(|value|, []);
    assert b == PutU16(typ) + (PutU16(|value|) + value + more);
    assert b[2..4] == PutU16(|value|) == PutU16(|value|) + [];
  }

  lemma WalkSkipsOne(a: Attr, more: Bytes, key: Bytes)
    requires |key| == 16 && WellFormed(a) && a.typ != XOR_MAPPED_ADDRESS
    ensures Walk(Encode(a) + more, key) == Walk(more, key)
  {
    EncodedFields(a.typ, a.value, a.pad + more);
    assert Encode(a) + more == PutU16(a.typ) + PutU16(|a.value|) + a.value + (a.pad + more);
    assert (Encode(a) + more)[4 + Padded(|a.value|)..] == more;
  }

  lemma {:induction false} WalkSkips(attrs: seq<Attr>, more: Bytes, key: Bytes)
    requires |key| == 16
    requires forall i :: 0 <= i < |attrs| ==> WellFormed(attrs[i]) && attrs[i].typ != XOR_MAPPED_ADDRESS
    ensures Walk(EncodeAll(attrs) + more, key) == Walk(more, key)
  {
    if attrs == [] {
      assert EncodeAll(attrs) + more == more;
    } else {
      var rest := EncodeAll(attrs[1..]) + more;
      assert EncodeAll(attrs) + more == Encode(attrs[0]) + rest;
      WalkSkipsOne(attrs[0], rest, key);
      WalkSkips(attrs[1..], more, key);
    }
  }

  lemma WalkStops(value: Bytes, more: Bytes, key: Bytes)
    requires |key| == 16 && |value| < 0x1_0000
    ensures Walk(PutU16(XOR_MAPPED_ADDRESS) + PutU16(|value|) + value + more, key) == ParseMapped(value, key)
  {
    EncodedFields(XOR_MAPPED_ADDRESS, value, more);
  }

  lemma FirstFields(attrs: Bytes)
    requires |attrs| >= 4 && |attrs| >= 4 + GetU16(attrs[2..4])
    ensures var alen := GetU16(attrs[2..4]);
            attrs == PutU16(GetU16(attrs)) + PutU16(alen) + attrs[4..4 + alen] + attrs[4 + alen..]
  {
    RoundTrip16(0, attrs);
    RoundTrip16(0, attrs[2..4]);
    assert attrs[2..4][..2] == attrs[2..4];
  }

  /** What the walk finds is the first mapped address after well-formed attributes of other types. */
  lemma {:induction false} WalkFindsFirst(attrs: Bytes, key: Bytes)
    returns (before: seq<Attr>, value: Bytes, more: Bytes)
    requires |key| == 16 && Walk(attrs, key).Ok?
    ensures forall i :: 0 <= i < |before| ==> WellFormed(before[i]) && before[i].typ != XOR_MAPPED_ADDRESS
    ensures |value| < 0x1_0000
    ensures attrs == EncodeAll(before) + (PutU16(XOR_MAPPED_ADDRESS) + PutU16(|value|) + value + more)
    ensures Walk(attrs, key) == ParseMapped(value, key)
    decreases |attrs|
  {
    FirstFields(attrs);
    var alen := GetU16(attrs[2..4]);
    var v := attrs[4..4 + alen];
    if GetU16(attrs) == XOR_MAPPED_ADDRESS {
      before, value, more := [], v, attrs[4 + alen..];
    } else {
      var step := 4 + Padded(alen);
      var later;
      later, value, more := WalkFindsFirst(attrs[step..], key);
      before := Prepend(attrs, later);
      Regroup(attrs, step, EncodeAll(later), PutU16(XOR_MAPPED_ADDRESS) + PutU16(|value|) + value + more);
    }
  }

  lemma Regroup(attrs: Bytes, step: nat, x: Bytes, y: Bytes)
    requires step <= |attrs| && attrs[step..] == x + y
    ensures attrs == attrs[..step] + x + y
  {
    assert attrs == attrs[..step] + attrs[step..];
  }

  /** The first attribute of attrs in front of those that follow it. */
  lemma Prepend(attrs: Bytes, later: seq<Attr>) returns (all: seq<Attr>)
    requires |attrs| >= 4 && |attrs| >= 4 + Padded(GetU16(attrs[2..4])) && GetU16(attrs) != XOR_MAPPED_ADDRESS
    requires forall i :: 0 <= i < |later| ==> WellFormed(later[i]) && later[i].typ != XOR_MAPPED_ADDRESS
    ensures forall i :: 0 <= i < |all| ==> WellFormed(all[i]) && all[i].typ != XOR_MAPPED_ADDRESS
    ensures EncodeAll(all) == attrs[..4 + Padded(GetU16(attrs[2..4]))] + EncodeAll(later)
  {
    FirstFields(attrs);
    var alen := GetU16(attrs[2..4]);
    var step := 4 + Padded(alen);
    var a := Attr(GetU16(attrs), attrs[4..4 + alen], attrs[4 + alen..step]);
    assert attrs[..step] == Encode(a);
    all := [a] + later;
    assert all[1..] == later;
  }

  lemma MappedValueParses(src: Addr, key: Bytes)
    requires SplitAddress(src.ip).Ok? && |key| == 16
    ensures ParseMapped(MappedValue(src, key), key) == Ok(Addr(SplitAddress(src.ip).value.1, src.port % 0x1_0000))
  {
    var fa, p := SplitAddress(src.ip).value, src.port % 0x1_0000;
    var q := XorU16(p, XOR_PORT_MASK);
    PortRoundTrip(p);
    XorWithTwice(fa.1, key);
    MappedValueFields(fa.0, q, XorWith(fa.1, key));
  }

  lemma PortRoundTrip(p: nat)
    requires p < 0x1_0000
    ensures XorU16(p, XOR_PORT_MASK) < 0x1_0000 && XorU16(XorU16(p, XOR_PORT_MASK), XOR_PORT_MASK) == p
  {
    Widths();
    XorTwice(p, XOR_PORT_MASK, 16);
  }

  lemma MappedValueFields(family: byte, q: nat, x: Bytes)
    requires q < 0x1_0000
    ensures var v := [0, family] + PutU16(q) + x;
            |v| == 4 + |x| && v[0] == 0 && v[1] == family && GetU16(v[2..4]) == q && v[4..4 + |x|] == x
  {
    var v := [0, family] + PutU16(q) + x;
    RoundTrip16(q, []);
    assert v[2..4] == PutU16(q) == PutU16(q) + [];
  }

  /** A response with other attributes around its mapped address decodes to that address. */
  lemma DecodeAmongAttributes(txid: Bytes, before: seq<Attr>, src: Addr, more: Bytes, trailing: Bytes)
    requires |txid| == 12 && SplitAddress(src.ip).Ok?
    requires forall i :: 0 <= i < |before| ==> WellFormed(before[i]) && before[i].typ != XOR_MAPPED_ADDRESS
    requires |EncodeAll(before)| + 24 + |more| < 0x1_0000
    ensures var v := MappedValue(src, XorKey(txid));
            var body := EncodeAll(before) + (PutU16(XOR_MAPPED_ADDRESS) + PutU16(|v|) + v + more);
            Decoded(Header(BINDING_RESPONSE, |body|, txid) + body + trailing) ==
            Ok(Addr(SplitAddress(src.ip).value.1, src.port % 0x1_0000))
  {
    var v := MappedValue(src, XorKey(txid));
    var tail := PutU16(XOR_MAPPED_ADDRESS) + PutU16(|v|) + v + more;
    var body := EncodeAll(before) + tail;
    WalkSkips(before, tail, XorKey(txid));
    WalkStops(v, more, XorKey(txid));
    MappedValueParses(src, XorKey(txid));
    DecodedBody(txid, body, trailing);
  }

  lemma HeaderFields(msgType: nat, msgLen: nat, txid: Bytes, more: Bytes)
    requires |txid| == 12 && msgType < 0x1_0000 && msgLen < 0x1_0000
    ensures var pkt := Header(msgType, msgLen, txid) + more;
            && |pkt| == HEADER_LEN + |more| && GetU16(pkt) == msgType && GetU16(pkt[2..4]) == msgLen
            && GetU32(pkt[4..8]) == MAGIC_COOKIE && pkt[4..20] == XorKey(txid) && pkt[20..] == more
  {
    var t, n, cookie := PutU16(msgType), PutU16(msgLen), PutU32(MAGIC_COOKIE);
    var pkt := Header(msgType, msgLen, txid) + more;
    RoundTrip16(msgType, []);
    RoundTrip16(msgLen, []);
    RoundTrip32(MAGIC_COOKIE, []);
    assert pkt[..2] == t == t + [];
    assert pkt[2..4] == n == n + [];
    assert pkt[4..8] == cookie == cookie + [];
    assert pkt[4..20] == cookie + txid;
    assert pkt[20..] == more;
    assert GetU16(pkt) == GetU16(pkt[..2]);
  }

  lemma DecodedBody(txid: Bytes, body: Bytes, trailing: Bytes)
    requires |txid| == 12 && |body| < 0x1_0000
    ensures Decoded(Header(BINDING_RESPONSE, |body|, txid) + body + trailing) == Walk(body, XorKey(txid))
  {
    var h := Header(BINDING_RESPONSE, |body|, txid);
    HeaderFields(BINDING_RESPONSE, |body|, txid, body + trailing);
    assert h + body + trailing == h + (body + trailing);
    assert (h + (body + trailing))[20..20 + |body|] == body;
  }

  const COOKIE_BYTES: Bytes := [0x21, 0x12, 0xA4, 0x42]

  /** The front of an IPv4 address in its IPv6 form. */
  const MAPPED_PREFIX: Bytes := [0, 0, 0, 0, 0, 0, 0, 0, 0, 0, 0xFF, 0xFF]

  /** Which family and address bytes a source has: an IPv4-mapped address counts as IPv4. */
  lemma AddressForms(ip: Bytes)
    ensures |ip| == 4 ==> SplitAddress(ip) == Ok((1, ip))
    ensures |ip| == 16 && ip[..12] == MAPPED_PREFIX ==> SplitAddress(ip) == Ok((1, ip[12..]))
    ensures |ip| == 16 && ip[..12] != MAPPED_PREFIX ==> SplitAddress(ip) == Ok((2, ip))
    ensures |ip| != 4 && |ip| != 16 ==> SplitAddress(ip) == Err(UnsupportedIP)
  {
    if |ip| == 16 && To4(ip).Some? {
      assert ip[..12] == MAPPED_PREFIX;
    } else if |ip| == 16 && ip[..12] == MAPPED_PREFIX {
      assert forall i :: 0 <= i < 12 ==> ip[i] == MAPPED_PREFIX[i];
    }
  }

  lemma CookieBytes(b: Bytes)
    requires |b| == 4
    ensures GetU32(b) == MAGIC_COOKIE <==> b == COOKIE_BYTES
  {
  }

  /** Exactly which requests are answered, whatever else they carry. */
  lemma AnsweredIff(pkt: Bytes, src: Option<Addr>)
    ensures Response(pkt, src).Ok?
       <==> |pkt| >= 20 && pkt[..2] == [0, 1] && pkt[4..8] == COOKIE_BYTES
            && src.Some? && (|src.value.ip| == 4 || |src.value.ip| == 16)
  {
    if |pkt| >= 20 {
      CookieBytes(pkt[4..8]);
      assert GetU16(pkt) == BINDING_REQUEST <==> pkt[..2] == [0, 1];
    }
    if src.Some? { AddressForms(src.value.ip); }
  }

  /** The bytes of the answer: a binding response with the request's transaction id and one attribute, which holds
      family, port and address, each byte of the latter two masked with the cookie and the transaction id. */
  lemma ResponseLayout(pkt: Bytes, src: Option<Addr>, r: Bytes, family: byte, ip: Bytes, txid: Bytes)
    returns (head: Bytes, attr: Bytes, v: Bytes, masked: Bytes)
    requires Response(pkt, src) == Ok(r) && |pkt| >= 20 && txid == pkt[8..20]
    requires src.Some? && SplitAddress(src.value.ip) == Ok((family, ip))
    ensures r == head + attr && |ip| <= 16 && HeaderLayout(head, 8 + |ip|, txid) && AttributeLayout(attr, v)
    ensures ValueLayout(v, family, src.value.port % 0x1_0000, masked)
    ensures |masked| == |ip| && forall i :: 0 <= i < |ip| ==> masked[i] == XorByte(ip[i], (COOKIE_BYTES + txid)[i])
  {
    v, masked := MappedValue(src.value, XorKey(txid)), XorWith(ip, XorKey(txid));
    head, attr := Header(BINDING_RESPONSE, 4 + |v|, txid), PutU16(XOR_MAPPED_ADDRESS) + PutU16(|v|) + v;
    ResponseParts(pkt, src, r, head, attr, v);
    PartsLayout(src.value, txid, family, ip, head, attr, v, masked);
  }

  lemma PartsLayout(src: Addr, txid: Bytes, family: byte, ip: Bytes, head: Bytes, attr: Bytes, v: Bytes, masked: Bytes)
    requires SplitAddress(src.ip) == Ok((family, ip)) && |txid| == 12
    requires v == MappedValue(src, XorKey(txid)) && masked == XorWith(ip, XorKey(txid))
    requires head == Header(BINDING_RESPONSE, 4 + |v|, txid)
    requires attr == PutU16(XOR_MAPPED_ADDRESS) + PutU16(|v|) + v
    ensures |ip| <= 16 && HeaderLayout(head, 8 + |ip|, txid) && AttributeLayout(attr, v)
    ensures ValueLayout(v, family, src.port % 0x1_0000, masked)
    ensures |masked| == |ip| && forall i :: 0 <= i < |ip| ==> masked[i] == XorByte(ip[i], (COOKIE_BYTES + txid)[i])
  {
    AddressForms(src.ip);
    MappedParts(src, XorKey(txid), family, ip, v, masked);
    HeaderBytes(8 + |ip|, txid);
    AttributeBytes(v);
  }

  lemma MappedParts(src: Addr, key: Bytes, family: byte, ip: Bytes, v: Bytes, masked: Bytes)
    requires SplitAddress(src.ip) == Ok((family, ip)) && |key| == 16
    requires v == MappedValue(src, key) && masked == XorWith(ip, key)
    ensures |v| == 4 + |ip| && ValueLayout(v, family, src.port % 0x1_0000, masked) && |masked| == |ip|
    ensures forall i :: 0 <= i < |ip| ==> masked[i] == XorByte(ip[i], key[i])
  {
    ValueBytes(family, src.port % 0x1_0000, masked);
  }

  lemma ResponseParts(pkt: Bytes, src: Option<Addr>, r: Bytes, head: Bytes, attr: Bytes, v: Bytes)
    requires Response(pkt, src) == Ok(r) && |pkt| >= 20 && src.Some? && SplitAddress(src.value.ip).Ok?
    requires v == MappedValue(src.value, XorKey(pkt[8..20]))
    requires head == Header(BINDING_RESPONSE, 4 + |v|, pkt[8..20])
    requires attr == PutU16(XOR_MAPPED_ADDRESS) + PutU16(|v|) + v
    ensures r == head + attr
  {
  }

  /** [1][1][length][cookie][transaction id]. */
  ghost predicate HeaderLayout(h: Bytes, n: nat, txid: Bytes) {
    exists f: Bytes :: h == [1, 1] + f + COOKIE_BYTES + txid && |f| == 2 && Value(f) == n
  }

  /** [0][0x20][length][value]. */
  ghost predicate AttributeLayout(a: Bytes, v: Bytes) {
    exists f: Bytes :: a == [0, 0x20] + f + v && |f| == 2 && Value(f) == |v|
  }

  /** [0][family][masked port][masked address]. */
  ghost predicate ValueLayout(v: Bytes, family: byte, port: nat, masked: Bytes) {
    exists f: Bytes :: v == [0, family] + f + masked && |f| == 2 && Value(f) == XorU16(port, 0x2112)
  }

  lemma FieldBytes()
    ensures PutU16(BINDING_RESPONSE) == [1, 1] && PutU16(XOR_MAPPED_ADDRESS) == [0, 0x20]
    ensures PutU32(MAGIC_COOKIE) == COOKIE_BYTES
  {
  }

  lemma LengthBytes(n: nat) returns (f: Bytes)
    requires n < 0x1_0000
    ensures f == PutU16(n) && |f| == 2 && Value(f) == n
  {
    NetworkOrder([], n);
    f := PutU16(n);
  }

  lemma HeaderBytes(n: nat, txid: Bytes)
    requires |txid| == 12 && n < 0x1_0000
    ensures HeaderLayout(Header(BINDING_RESPONSE, n, txid), n, txid) && XorKey(txid) == COOKIE_BYTES + txid
  {
    FieldBytes();
    var f := LengthBytes(n);
    var h := Header(BINDING_RESPONSE, n, txid);
    assert h == [1, 1] + f + COOKIE_BYTES + txid;
  }

  lemma AttributeBytes(v: Bytes)
    requires |v| < 0x1_0000
    ensures AttributeLayout(PutU16(XOR_MAPPED_ADDRESS) + PutU16(|v|) + v, v)
  {
    FieldBytes();
    var f := LengthBytes(|v|);
    assert PutU16(XOR_MAPPED_ADDRESS) + PutU16(|v|) + v == [0, 0x20] + f + v;
  }

  lemma ValueBytes(family: byte, port: nat, masked: Bytes)
    ensures ValueLayout([0, family] + PutU16(XorU16(port, XOR_PORT_MASK)) + masked, family, port, masked)
  {
    XorU16Bits(port, XOR_PORT_MASK, 0);
    var f := LengthBytes(XorU16(port, XOR_PORT_MASK));
    assert [0, family] + PutU16(XorU16(port, XOR_PORT_MASK)) + masked == [0, family] + f + masked;
  }

  /** Only such a response is ever accepted: what is decoded stands in its first mapped address. */
  lemma DecodedMeans(pkt: Bytes)
    returns (head: Bytes, txid: Bytes, body: Bytes, trailing: Bytes, before: seq<Attr>, value: Bytes, more: Bytes)
    requires Decoded(pkt).Ok?
    ensures pkt == head + body + trailing && |txid| == 12 && HeaderLayout(head, |body|, txid)
    ensures body == EncodeAll(before) + (PutU16(XOR_MAPPED_ADDRESS) + PutU16(|value|) + value + more)
    ensures forall i :: 0 <= i < |before| ==> WellFormed(before[i]) && before[i].typ != XOR_MAPPED_ADDRESS
    ensures Unmasked(value, COOKIE_BYTES + txid, Decoded(pkt).value)
  {
    head, txid, body, trailing := HeaderSplit(pkt);
    before, value, more := WalkFindsFirst(body, COOKIE_BYTES + txid);
    ParsedIsUnmasked(value, COOKIE_BYTES + txid);
  }

  /** The header of a response, and what it says of the attributes. */
  lemma HeaderSplit(pkt: Bytes) returns (head: Bytes, txid: Bytes, body: Bytes, trailing: Bytes)
    requires Decoded(pkt).Ok?
    ensures pkt == head + body + trailing && |txid| == 12 && HeaderLayout(head, |body|, txid)
    ensures Decoded(pkt) == Walk(body, COOKIE_BYTES + txid)
  {
    var n := GetU16(pkt[2..4]);
    head, txid, body, trailing := pkt[..20], pkt[8..20], pkt[20..20 + n], pkt[20 + n..];
    CookieBytes(pkt[4..8]);
    Value16(pkt[2..4]);
    assert pkt[..2] == [1, 1];
    assert head == [1, 1] + pkt[2..4] + COOKIE_BYTES + txid;
    assert pkt[4..20] == COOKIE_BYTES + txid;
  }

  /** The address and port of an attribute value in one of the two families, whatever follows them. */
  ghost predicate Unmasked(v: Bytes, key: Bytes, a: Addr) {
    && |v| >= 4 + |a.ip| && |a.ip| <= |key| && v[0] == 0
    && ((v[1] == 1 && |a.ip| == 4) || (v[1] == 2 && |a.ip| == 16))
    && a.port == XorU16(Value(v[2..4]), 0x2112)
    && forall i :: 0 <= i < |a.ip| ==> a.ip[i] == XorByte(v[4 + i], key[i])
  }

  lemma ParsedIsUnmasked(v: Bytes, key: Bytes)
    requires |key| == 16 && ParseMapped(v, key).Ok?
    ensures Unmasked(v, key, ParseMapped(v, key).value)
  {
    Value16(v[2..4]);
  }

  /** For every valid request the decoded response is the requester's address and port. */
  lemma RequestRoundTrip(pkt: Bytes, src: Option<Addr>)
    requires RequestError(pkt, src).None?
    ensures Response(pkt, src).Ok?
    ensures Decoded(Response(pkt, src).value)
         == Ok(Addr(SplitAddress(src.value.ip).value.1, src.value.port % 0x1_0000))
  {
    var txid := pkt[8..20];
    DecodeAmongAttributes(txid, [], src.value, [], []);
    var v := MappedValue(src.value, XorKey(txid));
    var tail := PutU16(XOR_MAPPED_ADDRESS) + PutU16(|v|) + v;
    assert EncodeAll([]) + (tail + []) == tail;
    assert Response(pkt, src).value == Header(BINDING_RESPONSE, |tail|, txid) + tail + [];
  }
}

/** The codec as the program computes it, with its loops. */
module Stun {
  import opened Wrappers
  import opened Noise
  import opened BigEndian
  import opened Xors
  import opened StunSpec

  /** Fills a fresh array byte by byte with the exclusive or of v and key. */
  method XorInto(v: Bytes, key: Bytes) returns (x: Bytes)
    requires |v| <= |key|
    ensures x == XorWith(v, key)
  {
    var out := new byte[|v|];
    var i := 0;
    while i < |v|
      invariant 0 <= i <= |v|
      invariant forall j :: 0 <= j < i ==> out[j] == XorByte(v[j], key[j])
    {
      out[i] := XorByte(v[i], key[i]);
      i := i + 1;
    }
    x := out[..];
  }

  method HandleBindingRequest(pkt: Bytes, src: Option<Addr>) returns (r: Result<Bytes, Error>)
    ensures r == Response(pkt, src)
  {
    if |pkt| < HEADER_LEN { return Err(TooShort); }
    if GetU16(pkt) != BINDING_REQUEST { return Err(WrongType); }
    if GetU32(pkt[4..8]) != MAGIC_COOKIE { return Err(BadCookie); }
    if src.None? || src.value.ip == [] { return Err(NoSource); }
    var split := SplitAddress(src.value.ip);
    if split.Err? { return Err(split.error); }
    var family, addrBytes := split.value.0, split.value.1;
    var attrLen := 4 + |addrBytes|;
    var msgLen := 4 + attrLen;
    var resp := Header(BINDING_RESPONSE, msgLen, pkt[8..20]);
    assert resp[4..20] == XorKey(pkt[8..20]);
    var xaddr := XorInto(addrBytes, resp[4..20]);
    resp := resp + PutU16(XOR_MAPPED_ADDRESS);
    resp := resp + PutU16(attrLen);
    resp := resp + [0];
    resp := resp + [family];
    resp := resp + PutU16(XorU16(src.value.port % 0x1_0000, XOR_PORT_MASK));
    resp := resp + xaddr;
    ghost var v := MappedValue(src.value, XorKey(pkt[8..20]));
    assert |v| == attrLen;
    assert resp == Header(BINDING_RESPONSE, 4 + |v|, pkt[8..20]) + PutU16(XOR_MAPPED_ADDRESS) + PutU16(|v|) + v;
    return Ok(resp);
  }

  method ParseXORMappedAddress(v: Bytes, key: Bytes) returns (r: Result<Addr, Error>)
    requires |key| == 16
    ensures r == ParseMapped(v, key)
  {
    if |v| < 4 { return Err(ValueTooShort); }
    if v[0] != 0 { return Err(ReservedNonZero); }
    var port := XorU16(GetU16(v[2..4]), XOR_PORT_MASK);
    var xaddr := v[4..];
    if v[1] == 1 {
      if |xaddr| < 4 { return Err(TruncatedAddress); }
      assert xaddr[..4] == v[4..8];
      var ip := XorInto(xaddr[..4], key);
      return Ok(Addr(ip, port));
    }
    if v[1] == 2 {
      if |xaddr| < 16 { return Err(TruncatedAddress); }
      assert xaddr[..16] == v[4..20];
      var ip := XorInto(xaddr[..16], key);
      return Ok(Addr(ip, port));
    }
    return Err(UnsupportedFamily);
  }

  method DecodeXORMappedAddress(pkt: Bytes) returns (r: Result<Addr, Error>)
    ensures r == Decoded(pkt)
  {
    if |pkt| < HEADER_LEN { return Err(TooShort); }
    if GetU16(pkt) != BINDING_RESPONSE { return Err(WrongType); }
    if GetU32(pkt[4..8]) != MAGIC_COOKIE { return Err(BadCookie); }
    var msgLen := GetU16(pkt[2..4]);
    if |pkt| < HEADER_LEN + msgLen { return Err(TruncatedPacket); }
    var attrs := pkt[HEADER_LEN..HEADER_LEN + msgLen];
    var key := pkt[4..20];
    while |attrs| >= 4
      invariant Walk(attrs, key) == Decoded(pkt)
      decreases |attrs|
    {
      var atyp := GetU16(attrs);
      var alen := GetU16(attrs[2..4]);
      if |attrs| < 4 + alen { return Err(TruncatedAttribute); }
      if atyp == XOR_MAPPED_ADDRESS {
        r := ParseXORMappedAddress(attrs[4..4 + alen], key);
        return;
      }
      var step := 4 + Padded(alen);
      if step > |attrs| { return Err(NoMappedAddress); }
      attrs := attrs[step..];
    }
    return Err(NoMappedAddress);
  }
}
