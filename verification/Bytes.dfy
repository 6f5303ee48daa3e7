/** Bytes and big-endian integers. */
module Bytes {
  type Byte = x: int | 0 <= x < 256

  /** The number of values `n` bytes can hold. */
  function Span(n: nat): (p: nat)
    ensures p > 0
  {
    if n == 0 then 1 else 256 * Span(n - 1)
  }

  lemma Spans()
    ensures Span(1) == 0x100 && Span(2) == 0x1_0000 && Span(4) == 0x1_0000_0000 && Span(8) == 0x1_0000_0000_0000_0000
  {
    assert Span(3) == 0x100_0000 && Span(5) == 0x100_0000_0000;
    assert Span(6) == 0x1_0000_0000_0000 && Span(7) == 0x100_0000_0000_0000;
  }

  /** The low `n` bytes of `v`, most significant first. */
  function BigEndian(v: nat, n: nat): (bs: seq<Byte>)
    ensures |bs| == n
  {
    if n == 0 then [] else BigEndian(v / 256, n - 1) + [v % 256]
  }

  function FromBigEndian(bs: seq<Byte>): nat {
    if bs == [] then 0 else 256 * FromBigEndian(bs[..|bs| - 1]) + bs[|bs| - 1]
  }

  lemma {:induction false} ReadsBack(v: nat, n: nat)
    requires v < Span(n)
    ensures FromBigEndian(BigEndian(v, n)) == v
  {
    if n == 0 {
    } else {
      ReadsBack(v / 256, n - 1);
      assert BigEndian(v, n)[..n - 1] == BigEndian(v / 256, n - 1);
    }
  }

  lemma {:induction false} WritesBack(bs: seq<Byte>)
    ensures FromBigEndian(bs) < Span(|bs|) && BigEndian(FromBigEndian(bs), |bs|) == bs
  {
    if bs == [] {
    } else {
      WritesBack(bs[..|bs| - 1]);
    }
  }

  lemma DivideTwice(v: nat, b: nat)
    requires b > 0
    ensures v / 256 / b == v / (256 * b)
  {
    var q := v / 256;
    var t, u := q / b, q % b;
    assert v == 256 * q + v % 256 && q == b * t + u;
    assert v == (256 * b) * t + (256 * u + v % 256);
    assert 0 <= 256 * u + v % 256 < 256 * b;
    Quotient(v, 256 * b, t, 256 * u + v % 256);
  }

  lemma Quotient(v: nat, d: nat, t: nat, rest: nat)
    requires d > 0 && v == d * t + rest && rest < d
    ensures v / d == t
  {
    assert v == d * (v / d) + v % d;
    StepUp(d, v / d, t);
    StepUp(d, t, v / d);
  }

  lemma {:induction false} StepUp(d: nat, a: nat, b: nat)
    ensures a < b ==> d * a + d <= d * b
  {
    if a < b {
      StepUp(d, a, b - 1);
      assert d * b == d * (b - 1) + d;
    }
  }

  /** Byte `i` of a big-endian number: the most significant comes first. */
  lemma {:induction false} BigEndianAt(v: nat, n: nat, i: nat)
    requires i < n
    ensures BigEndian(v, n)[i] == v / Span(n - 1 - i) % 256
    decreases n
  {
    if i == n - 1 {
    } else {
      BigEndianAt(v / 256, n - 1, i);
      DivideTwice(v, Span(n - 2 - i));
    }
  }

  /** `bs` is the number `v`, most significant byte first. */
  ghost predicate IsNumber(bs: seq<Byte>, v: nat) {
    forall i :: 0 <= i < |bs| ==> bs[i] == v / Span(|bs| - 1 - i) % 256
  }

  lemma BigEndianIs(v: nat, n: nat)
    ensures IsNumber(BigEndian(v, n), v)
  {
    forall i | 0 <= i < n ensures BigEndian(v, n)[i] == v / Span(n - 1 - i) % 256 {
      BigEndianAt(v, n, i);
    }
  }

  /** Bytes are the number of only one value in range. */
  lemma NumberIs(bs: seq<Byte>, v: nat)
    requires IsNumber(bs, v) && v < Span(|bs|)
    ensures FromBigEndian(bs) == v
  {
    BigEndianIs(v, |bs|);
    assert bs == BigEndian(v, |bs|);
    ReadsBack(v, |bs|);
  }

  /** `part` lies at `pos`. */
  predicate Holds(data: seq<Byte>, pos: nat, part: seq<Byte>) {
    pos + |part| <= |data| && data[pos..pos + |part|] == part
  }

  lemma HoldsBoth(data: seq<Byte>, pos: nat, a: seq<Byte>, b: seq<Byte>)
    ensures Holds(data, pos, a + b) <==> Holds(data, pos, a) && Holds(data, pos + |a|, b)
  {
    if pos + |a| + |b| <= |data| {
      var part := data[pos..pos + |a| + |b|];
      assert part[..|a|] == data[pos..pos + |a|] && part[|a|..] == data[pos + |a|..pos + |a| + |b|];
    }
  }
}
