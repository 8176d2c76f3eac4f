/** Big-endian integers on the wire. */
module BigEndian {
  import opened Wrappers
  import opened Noise

  function PutU16(n: nat): (b: Bytes)
    ensures |b| == 2
  {
    [(n / 0x100 % 0x100) as byte, (n % 0x100) as byte]
  }

  function GetU16(b: Bytes): (n: nat)
    requires |b| >= 2
    ensures n < 0x1_0000
  {
    b[0] as nat * 0x100 + b[1] as nat
  }

  function PutU32(n: nat): (b: Bytes)
    ensures |b| == 4
  {
    PutU16(n / 0x1_0000) + PutU16(n)
  }

  function GetU32(b: Bytes): (n: nat)
    requires |b| >= 4
    ensures n < 0x1_0000_0000
  {
    GetU16(b) * 0x1_0000 + GetU16(b[2..])
  }

  function PutU64(n: nat): (b: Bytes)
    ensures |b| == 8
  {
    PutU32(n / 0x1_0000_0000) + PutU32(n)
  }

  function GetU64(b: Bytes): (n: Uint64)
    requires |b| >= 8
  {
    GetU32(b) * 0x1_0000_0000 + GetU32(b[4..])
  }

  lemma Halves16(n: nat)
    ensures n / 0x100 % 0x100 * 0x100 + n % 0x100 == n % 0x1_0000
  {
  }

  lemma Bytes16(hi: nat, lo: nat)
    requires hi < 0x100 && lo < 0x100
    ensures (hi * 0x100 + lo) / 0x100 % 0x100 == hi && (hi * 0x100 + lo) % 0x100 == lo
  {
  }

  /** Writing truncates to the field, reading gives the written value back, and the bytes are determined. */
  lemma RoundTrip16(n: nat, b: Bytes)
    ensures GetU16(PutU16(n) + b) == n % 0x1_0000
    ensures |b| >= 2 ==> PutU16(GetU16(b)) == b[..2]
  {
    Halves16(n);
    if |b| >= 2 { Bytes16(b[0] as nat, b[1] as nat); }
  }

  lemma Halves32(n: nat)
    ensures n / 0x1_0000 % 0x1_0000 * 0x1_0000 + n % 0x1_0000 == n % 0x1_0000_0000
  {
  }

  lemma Halves64(n: Uint64)
    ensures n / 0x1_0000_0000 % 0x1_0000_0000 * 0x1_0000_0000 + n % 0x1_0000_0000 == n
  {
  }

  lemma RoundTrip32(n: nat, b: Bytes)
    ensures GetU32(PutU32(n) + b) == n % 0x1_0000_0000
  {
    var hi, lo := PutU16(n / 0x1_0000), PutU16(n);
    RoundTrip16(n / 0x1_0000, lo + b);
    RoundTrip16(n, b);
    Halves32(n);
    assert PutU32(n) + b == hi + (lo + b);
    assert (hi + (lo + b))[2..] == lo + b;
  }

  lemma RoundTrip64(n: Uint64, b: Bytes)
    ensures GetU64(PutU64(n) + b) == n
  {
    var hi, lo := PutU32(n / 0x1_0000_0000), PutU32(n);
    RoundTrip32(n / 0x1_0000_0000, lo + b);
    RoundTrip32(n, b);
    Halves64(n);
    assert PutU64(n) + b == hi + (lo + b);
    assert (hi + (lo + b))[4..] == lo + b;
  }

  /** The number a byte string writes in base 256, most significant byte first. */
  function Value(b: Bytes): nat {
    if b == [] then 0 else Value(b[..|b| - 1]) * 256 + b[|b| - 1] as nat
  }

  lemma ValueSplit2(b: Bytes)
    requires |b| >= 2
    ensures Value(b) == Value(b[..|b| - 2]) * 0x1_0000 + b[|b| - 2] as nat * 256 + b[|b| - 1] as nat
  {
    var c := b[..|b| - 1];
    assert c[..|c| - 1] == b[..|b| - 2];
  }

  lemma Value16(b: Bytes)
    requires |b| == 2
    ensures Value(b) == GetU16(b)
  {
    ValueSplit2(b);
  }

  lemma Value32(b: Bytes)
    requires |b| == 4
    ensures Value(b) == GetU32(b)
  {
    ValueSplit2(b);
    Value16(b[..2]);
  }

  lemma Value64(b: Bytes)
    requires |b| == 8
    ensures Value(b) == GetU64(b)
  {
    ValueSplit2(b);
    var c := b[..6];
    ValueSplit2(c);
    assert c[..4] == b[..4];
    Value32(b[..4]);
    assert GetU32(b[4..]) == GetU16(b[4..]) * 0x1_0000 + GetU16(b[4..][2..]);
  }

  /** What is read and written are the field's bytes as a number in network byte order, cut to its width. */
  lemma NetworkOrder(b: Bytes, n: nat)
    ensures |b| >= 2 ==> GetU16(b) == Value(b[..2])
    ensures |b| >= 4 ==> GetU32(b) == Value(b[..4])
    ensures |b| >= 8 ==> GetU64(b) == Value(b[..8])
    ensures Value(PutU16(n)) == n % 0x1_0000 && Value(PutU32(n)) == n % 0x1_0000_0000
    ensures n < 0x1_0000_0000_0000_0000 ==> Value(PutU64(n)) == n
  {
    if |b| >= 2 { Value16(b[..2]); }
    if |b| >= 4 { Value32(b[..4]); FrontOf32(b, b[..4]); }
    if |b| >= 8 { Value64(b[..8]); FrontOf64(b, b[..8]); }
    Value16(PutU16(n));
    Value32(PutU32(n));
    RoundTrip16(n, []);
    RoundTrip32(n, []);
    assert PutU16(n) + [] == PutU16(n) && PutU32(n) + [] == PutU32(n);
    if n < 0x1_0000_0000_0000_0000 {
      Value64(PutU64(n));
      RoundTrip64(n, []);
      assert PutU64(n) + [] == PutU64(n);
    }
  }

  lemma FrontOf32(b: Bytes, f: Bytes)
    requires |f| >= 4 && f <= b
    ensures GetU32(b) == GetU32(f)
  {
  }

  lemma FrontOf64(b: Bytes, f: Bytes)
    requires |b| >= 8 && f == b[..8]
    ensures GetU64(b) == GetU64(f)
  {
    FrontOf32(b, f);
    assert b[4..][..4] == f[4..];
    FrontOf32(b[4..], f[4..]);
  }
}
