/** Bounds-checked reads at a cursor, and how decoders are built from decoders. */
module Cursor {
  import opened Bytes

  /** A value and the position after it, or why there is none. */
  datatype Parsed<+T> = Ok(value: T, pos: nat) | Truncated | UnknownTag(tag: nat) | BadJson
  {
    predicate IsFailure() { !Ok? }
    function PropagateFailure<U>(): Parsed<U>
      requires IsFailure()
    {
      match this
      case Truncated => Truncated
      case UnknownTag(t) => UnknownTag(t)
      case BadJson => BadJson
    }
    function Extract(): (T, nat)
      requires !IsFailure()
    {
      (value, pos)
    }
  }

  function Take(buf: seq<Byte>, pos: nat, n: nat): (r: Parsed<seq<Byte>>)
    ensures r.Ok? ==> pos <= r.pos <= |buf|
  {
    if pos + n > |buf| then Truncated else Ok(buf[pos..pos + n], pos + n)
  }

  /** A big-endian number of `n` bytes. */
  function Number(buf: seq<Byte>, pos: nat, n: nat): (r: Parsed<nat>)
    ensures r.Ok? ==> pos <= r.pos <= |buf|
  {
    var (bs, q) :- Take(buf, pos, n);
    Ok(FromBigEndian(bs), q)
  }

  /** Bytes behind an `n`-byte length. */
  function TakePrefixed(buf: seq<Byte>, pos: nat, n: nat): (r: Parsed<seq<Byte>>)
    ensures r.Ok? ==> pos <= r.pos <= |buf|
  {
    var (len, q) :- Number(buf, pos, n);
    Take(buf, q, len)
  }

  function Prefixed(s: seq<Byte>, n: nat): (bs: seq<Byte>)
    ensures |bs| == n + |s|
  {
    BigEndian(|s|, n) + s
  }

  // ---- Decoders ----

  ghost predicate Advances<T(!new)>(d: (seq<Byte>, nat) -> Parsed<T>) {
    forall buf, pos: nat :: d(buf, pos).Ok? ==> pos <= d(buf, pos).pos
  }

  /** A decoder never moves the cursor back. */
  type Decoder<T(!new)> = d: (seq<Byte>, nat) -> Parsed<T> | Advances(d)
    witness (buf: seq<Byte>, pos: nat) => Truncated

  /** Cut a buffer to `k` bytes: an outcome that consumed no more is unchanged, one that consumed
      more becomes a truncation. */
  ghost predicate CutOutcome<T>(whole: Parsed<T>, cut: Parsed<T>, k: nat) {
    whole.Ok? ==> cut == if k < whole.pos then Truncated else whole
  }

  /** A strict decoder sees exactly the bytes it consumes. */
  ghost predicate Strict<T(!new)>(d: Decoder<T>) {
    forall buf, pos: nat, k: nat :: pos <= k <= |buf| ==> CutOutcome(d(buf, pos), d(buf[..k], pos), k)
  }

  /** Wherever `bs` lies, `d` reads it as `v` and stops behind it. */
  ghost predicate Reads<T(!new)>(d: Decoder<T>, bs: seq<Byte>, v: T) {
    forall buf, pos: nat :: Holds(buf, pos, bs) ==> d(buf, pos) == Ok(v, pos + |bs|)
  }

  lemma TakeCut(buf: seq<Byte>, pos: nat, n: nat, k: nat)
    requires pos <= k <= |buf|
    ensures CutOutcome(Take(buf, pos, n), Take(buf[..k], pos, n), k)
  {
    if pos + n <= k {
      assert buf[..k][pos..pos + n] == buf[pos..pos + n];
    }
  }

  lemma NumberCut(buf: seq<Byte>, pos: nat, n: nat, k: nat)
    requires pos <= k <= |buf|
    ensures CutOutcome(Number(buf, pos, n), Number(buf[..k], pos, n), k)
  {
    TakeCut(buf, pos, n, k);
  }

  lemma PrefixedCut(buf: seq<Byte>, pos: nat, n: nat, k: nat)
    requires pos <= k <= |buf|
    ensures CutOutcome(TakePrefixed(buf, pos, n), TakePrefixed(buf[..k], pos, n), k)
  {
    NumberCut(buf, pos, n, k);
    match Number(buf, pos, n)
    case Ok(len, q) => if q <= k { TakeCut(buf, q, len, k); }
    case _ =>
  }

  lemma NumberReads(buf: seq<Byte>, pos: nat, v: nat, n: nat)
    requires v < Span(n) && Holds(buf, pos, BigEndian(v, n))
    ensures Number(buf, pos, n) == Ok(v, pos + n)
  {
    ReadsBack(v, n);
  }

  lemma PrefixedReads(buf: seq<Byte>, pos: nat, s: seq<Byte>, n: nat)
    requires |s| < Span(n) && Holds(buf, pos, Prefixed(s, n))
    ensures TakePrefixed(buf, pos, n) == Ok(s, pos + n + |s|)
  {
    HoldsBoth(buf, pos, BigEndian(|s|, n), s);
    NumberReads(buf, pos, |s|, n);
  }

  // ---- Repetition ----

  /** `n` items one after another. */
  function Many<T(!new)>(d: Decoder<T>, buf: seq<Byte>, pos: nat, n: nat, done: seq<T>): (r: Parsed<seq<T>>)
    ensures r.Ok? ==> pos <= r.pos
    decreases n
  {
    if n == 0 then Ok(done, pos) else
    var (v, q) :- d(buf, pos);
    Many(d, buf, q, n - 1, done + [v])
  }

  lemma {:induction false} ManyCut<T(!new)>(d: Decoder<T>, buf: seq<Byte>, pos: nat, n: nat, done: seq<T>, k: nat)
    requires Strict(d) && pos <= k <= |buf|
    ensures CutOutcome(Many(d, buf, pos, n, done), Many(d, buf[..k], pos, n, done), k)
    decreases n
  {
    if n == 0 {
    } else {
      assert CutOutcome(d(buf, pos), d(buf[..k], pos), k);
      match d(buf, pos)
      case Ok(v, q) => if q <= k { ManyCut(d, buf, q, n - 1, done + [v], k); }
      case _ =>
    }
  }

  function Flat(parts: seq<seq<Byte>>): seq<Byte> {
    if parts == [] then [] else parts[0] + Flat(parts[1..])
  }

  /** Item `i` of the parts reads as value `i`. */
  ghost predicate ReadsEach<T(!new)>(d: Decoder<T>, parts: seq<seq<Byte>>, vs: seq<T>) {
    |parts| == |vs| && forall i :: 0 <= i < |parts| ==> Reads(d, parts[i], vs[i])
  }

  lemma {:induction false} ManyReads<T(!new)>(d: Decoder<T>, parts: seq<seq<Byte>>, vs: seq<T>, buf: seq<Byte>,
                                       pos: nat, done: seq<T>)
    requires ReadsEach(d, parts, vs) && Holds(buf, pos, Flat(parts))
    ensures Many(d, buf, pos, |parts|, done) == Ok(done + vs, pos + |Flat(parts)|)
    decreases |parts|
  {
    if parts == [] {
      assert done + vs == done;
    } else {
      var q := pos + |parts[0]|;
      HoldsBoth(buf, pos, parts[0], Flat(parts[1..]));
      assert Reads(d, parts[0], vs[0]) && d(buf, pos) == Ok(vs[0], q);
      assert forall i :: 0 <= i < |parts| - 1 ==> Reads(d, parts[1..][i], vs[1..][i]);
      ManyReads(d, parts[1..], vs[1..], buf, q, done + [vs[0]]);
      assert done + [vs[0]] + vs[1..] == done + vs;
    }
  }
}
