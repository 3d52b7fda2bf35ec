/**
 * Length-prefixed byte strings: eight-byte big-endian prefixes for what the hybrid key exchange hashes
 * (native/hybrid_kem.rs), eight-byte little-endian prefixes for a recipient context
 * (native/crypto_transit.rs).
 */
module Framing {
  import opened Common

  /** Every length is a `u64`. */
  const U64_RANGE: nat := 0x1_0000_0000_0000_0000

  function Ascii(s: string): Bytes {
    seq(|s|, i requires 0 <= i < |s| => (s[i] as int % 256) as Byte)
  }

  predicate Fits(part: Bytes) {
    |part| < U64_RANGE
  }

  predicate AllFit(parts: seq<Bytes>) {
    forall i :: 0 <= i < |parts| ==> Fits(parts[i])
  }

  // ------------------------------------------------------------------ fixed-width integers

  function Power256(k: nat): nat {
    if k == 0 then 1 else 256 * Power256(k - 1)
  }

  function BigEndian(n: nat, k: nat): (b: Bytes)
    ensures |b| == k
  {
    if k == 0 then [] else BigEndian(n / 256, k - 1) + [(n % 256) as Byte]
  }

  function LittleEndian(n: nat, k: nat): (b: Bytes)
    ensures |b| == k
  {
    if k == 0 then [] else [(n % 256) as Byte] + LittleEndian(n / 256, k - 1)
  }

  function FromBigEndian(b: Bytes): nat {
    if b == [] then 0 else 256 * FromBigEndian(b[..|b| - 1]) + Last(b) as nat
  }

  function FromLittleEndian(b: Bytes): nat {
    if b == [] then 0 else b[0] as nat + 256 * FromLittleEndian(b[1..])
  }

  lemma {:induction false} BigEndianReads(n: nat, k: nat)
    requires n < Power256(k)
    ensures FromBigEndian(BigEndian(n, k)) == n
  {
    if k > 0 {
      BigEndianReads(n / 256, k - 1);
      assert BigEndian(n, k)[..k - 1] == BigEndian(n / 256, k - 1);
    }
  }

  lemma {:induction false} LittleEndianReads(n: nat, k: nat)
    requires n < Power256(k)
    ensures FromLittleEndian(LittleEndian(n, k)) == n
  {
    if k > 0 {
      LittleEndianReads(n / 256, k - 1);
    }
  }

  lemma LowByte(x: nat, low: Byte)
    ensures (256 * x + low as nat) / 256 == x && (256 * x + low as nat) % 256 == low as nat
  {
  }

  lemma {:induction false} BigEndianIsOnto(b: Bytes)
    ensures FromBigEndian(b) < Power256(|b|) && BigEndian(FromBigEndian(b), |b|) == b
  {
    if b != [] {
      var init := b[..|b| - 1];
      BigEndianIsOnto(init);
      LowByte(FromBigEndian(init), Last(b));
      assert BigEndian(FromBigEndian(b), |b|) == BigEndian(FromBigEndian(init), |init|) + [Last(b)];
      assert b == init + [Last(b)];
    }
  }

  lemma EightBytesRange()
    ensures Power256(8) == U64_RANGE
  {
    assert Power256(4) == 0x1_0000_0000;
  }

  // ------------------------------------------------------------------ framed parts

  function Prefix(part: Bytes): (b: Bytes)
    ensures |b| == 8
  {
    BigEndian(|part|, 8)
  }

  function Framed(parts: seq<Bytes>): Bytes {
    if parts == [] then [] else Prefix(parts[0]) + parts[0] + Framed(parts[1..])
  }

  /** A reader of framed parts; `None` when a prefix or a part is cut short. */
  function Unframed(b: Bytes): Option<seq<Bytes>>
    decreases |b|
  {
    if b == [] then Some([])
    else if |b| < 8 then None
    else
      var n := FromBigEndian(b[..8]);
      if |b| < 8 + n then None
      else
        match Unframed(b[8 + n..])
        case None => None
        case Some(rest) => Some([b[8..8 + n]] + rest)
  }

  lemma PrefixReads(part: Bytes)
    requires Fits(part)
    ensures FromBigEndian(Prefix(part)) == |part|
  {
    EightBytesRange();
    BigEndianReads(|part|, 8);
  }

  lemma PrefixIsRead(part: Bytes, b: Bytes)
    requires |b| == 8 && FromBigEndian(b) == |part|
    ensures Fits(part) && Prefix(part) == b
  {
    BigEndianIsOnto(b);
    EightBytesRange();
  }

  /** Framing loses nothing, the number of parts included. */
  lemma {:induction false} FramedReads(parts: seq<Bytes>)
    requires AllFit(parts)
    ensures Unframed(Framed(parts)) == Some(parts)
  {
    if parts != [] {
      var b := Framed(parts);
      FramedReads(parts[1..]);
      PrefixReads(parts[0]);
      assert b[..8] == Prefix(parts[0]);
      assert b[8..8 + |parts[0]|] == parts[0];
      assert b[8 + |parts[0]|..] == Framed(parts[1..]);
      assert parts == [parts[0]] + parts[1..];
    }
  }

  lemma FramedHead(part: Bytes, rest: seq<Bytes>)
    ensures Framed([part] + rest) == Prefix(part) + part + Framed(rest)
  {
    assert ([part] + rest)[0] == part && ([part] + rest)[1..] == rest;
  }

  lemma FitsHead(part: Bytes, rest: seq<Bytes>)
    requires Fits(part) && AllFit(rest)
    ensures AllFit([part] + rest)
  {
  }

  lemma HeadIsFramed(b: Bytes, part: Bytes, tail: Bytes, rest: seq<Bytes>)
    requires |b| >= 8 && FromBigEndian(b[..8]) == |part| && b == b[..8] + part + tail
    requires AllFit(rest) && Framed(rest) == tail
    ensures AllFit([part] + rest) && Framed([part] + rest) == b
  {
    PrefixIsRead(part, b[..8]);
    FitsHead(part, rest);
    FramedHead(part, rest);
  }

  /** The reader accepts nothing but framings. */
  lemma {:induction false} OnlyFramedReads(b: Bytes)
    requires Unframed(b).Some?
    ensures AllFit(Unframed(b).value) && Framed(Unframed(b).value) == b
    decreases |b|
  {
    if b != [] {
      var n := FromBigEndian(b[..8]);
      var part, tail := b[8..8 + n], b[8 + n..];
      OnlyFramedReads(tail);
      assert b == b[..8] + part + tail;
      HeadIsFramed(b, part, tail, Unframed(tail).value);
    }
  }

  lemma FramedIsInjective(a: seq<Bytes>, b: seq<Bytes>)
    requires AllFit(a) && AllFit(b) && Framed(a) == Framed(b)
    ensures a == b
  {
    FramedReads(a);
    FramedReads(b);
  }

  lemma {:induction false} FramedAppends(parts: seq<Bytes>, part: Bytes)
    ensures Framed(parts + [part]) == Framed(parts) + Prefix(part) + part
  {
    if parts == [] {
      assert [part][1..] == [] && Framed([]) == [];
    } else {
      FramedAppends(parts[1..], part);
      assert parts + [part] == [parts[0]] + (parts[1..] + [part]) && parts == [parts[0]] + parts[1..];
      FramedHead(parts[0], parts[1..] + [part]);
      FramedHead(parts[0], parts[1..]);
      Regroup(Prefix(parts[0]) + parts[0], Framed(parts[1..]), Prefix(part), part);
    }
  }

  lemma Regroup(a: Bytes, b: Bytes, c: Bytes, d: Bytes)
    ensures a + (b + c + d) == a + b + c + d
  {
  }

  /** The loop behind every framed buffer and every absorption: prefix, then part. */
  method Frame(parts: seq<Bytes>) returns (buffer: Bytes)
    ensures buffer == Framed(parts)
  {
    buffer := [];
    assert parts[..0] == [];
    for i := 0 to |parts|
      invariant buffer == Framed(parts[..i])
    {
      FramedAppends(parts[..i], parts[i]);
      assert parts[..i + 1] == parts[..i] + [parts[i]];
      buffer := buffer + Prefix(parts[i]);
      buffer := buffer + parts[i];
    }
    assert parts[..|parts|] == parts;
  }

  function LittlePrefix(part: Bytes): (b: Bytes)
    ensures |b| == 8
  {
    LittleEndian(|part|, 8)
  }

  lemma LittlePrefixReads(part: Bytes)
    requires Fits(part)
    ensures FromLittleEndian(LittlePrefix(part)) == |part|
  {
    EightBytesRange();
    LittleEndianReads(|part|, 8);
  }

  lemma HeadsSplit(p: Bytes, a: Bytes, x: Bytes, q: Bytes, b: Bytes, y: Bytes)
    requires |p| == |q| && (p == q ==> |a| == |b|) && p + a + x == q + b + y
    ensures a == b && x == y
  {
    var l, r := p + a + x, q + b + y;
    assert l[..|p|] == p && r[..|q|] == q;
    assert l[|p|..|p| + |a|] == a && r[|q|..|q| + |b|] == b;
    assert l[|p| + |a|..] == x && r[|q| + |b|..] == y;
  }

  /** Equal length-prefixed heads split the same way. */
  lemma LittlePrefixSplits(a: Bytes, x: Bytes, b: Bytes, y: Bytes)
    requires Fits(a) && Fits(b)
    requires LittlePrefix(a) + a + x == LittlePrefix(b) + b + y
    ensures a == b && x == y
  {
    LittlePrefixReads(a);
    LittlePrefixReads(b);
    HeadsSplit(LittlePrefix(a), a, x, LittlePrefix(b), b, y);
  }
}
