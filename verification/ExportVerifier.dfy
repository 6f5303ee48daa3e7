/** Verifying a logical export: a header, data lines, and a trailer whose per-type counts must
    match the lines. */
module ExportVerifier {
  import opened Prelude

  const FORMAT := "rhypedb-logical-export-v1"

  /** The `kind` member of a line; any other value, or none, is `Unknown`. */
  datatype Kind = Header | Schema | Object | Edge | Vector | Trailer | Unknown

  predicate DataKind(kind: Kind) { kind == Object || kind == Edge || kind == Vector }

  /** One number per data kind. */
  datatype Counts = Counts(objects: nat, edges: nat, vectors: nat)
  {
    function Of(kind: Kind): nat
      requires DataKind(kind)
    {
      match kind
      case Object => objects
      case Edge => edges
      case Vector => vectors
    }

    function AddOne(kind: Kind): Counts
      requires DataKind(kind)
    {
      match kind
      case Object => Counts(objects + 1, edges, vectors)
      case Edge => Counts(objects, edges + 1, vectors)
      case Vector => Counts(objects, edges, vectors + 1)
    }

    function Plus(c: Counts): Counts {
      Counts(objects + c.objects, edges + c.edges, vectors + c.vectors)
    }
  }

  /** A trailer's claim for one type; a number that is missing counts as 0. */
  datatype Claim = Claim(typeName: string, objects: Option<nat>, edges: Option<nat>, vectors: Option<nat>)
  {
    function Wanted(): Counts { Counts(OrZero(objects), OrZero(edges), OrZero(vectors)) }
  }

  function OrZero(n: Option<nat>): nat { if n.Some? then n.value else 0 }

  /** A JSON line, by the members the verifier looks at. */
  datatype Json = Json(kind: Kind, format: Option<string>, typeName: Option<string>, complete: Option<bool>,
                       counts: Option<seq<Claim>>)

  datatype Line = Unreadable | Blank | NotJson | Parsed(json: Json)

  datatype Report = Report(totals: Counts, types: nat)
  datatype Error =
    | ReadError | EmptyFile | FirstNotJson | FirstNotHeader | UnknownFormat | AfterTrailer | InvalidJson | SecondHeader
    | UnknownKind | NoTrailer | NotComplete | NoCounts | Mismatch(typeName: string) | NotInTrailer(typeName: string)
  datatype Result = Ok(report: Report) | Err(error: Error)

  // ---- Lines ----

  predicate IsHeader(l: Line) { l.Parsed? && l.json.kind == Header }
  predicate IsData(l: Line) { l.Parsed? && DataKind(l.json.kind) }
  predicate IsSchema(l: Line) { l.Parsed? && l.json.kind == Schema }
  predicate IsTrailer(l: Line) { l.Parsed? && l.json.kind == Trailer }

  function TypeOf(l: Line): string
    requires l.Parsed?
  {
    if l.json.typeName.Some? then l.json.typeName.value else ""
  }

  /** A line without a type name counts for the empty one. */
  function One(l: Line, t: string, kind: Kind): nat {
    if l.Parsed? && l.json.kind == kind && (l.json.typeName == Some(t) || (l.json.typeName.None? && t == ""))
    then 1 else 0
  }

  /** The lines of one type and kind. */
  function TallyOf(ls: seq<Line>, t: string, kind: Kind): nat {
    if ls == [] then 0 else TallyOf(ls[..|ls| - 1], t, kind) + One(ls[|ls| - 1], t, kind)
  }

  /** The lines of one kind, of all types. */
  function TotalOf(ls: seq<Line>, kind: Kind): nat {
    if ls == [] then 0 else
    TotalOf(ls[..|ls| - 1], kind) + if ls[|ls| - 1].Parsed? && ls[|ls| - 1].json.kind == kind then 1 else 0
  }

  function NonBlank(ls: seq<Line>): seq<Line> {
    if ls == [] then [] else
    NonBlank(ls[..|ls| - 1]) + if ls[|ls| - 1] == Blank then [] else [ls[|ls| - 1]]
  }

  // ---- The reference: what a well-formed export is ----

  predicate Claims(claims: seq<Claim>, t: string) {
    exists i :: 0 <= i < |claims| && claims[i].typeName == t
  }

  /** The number a claim gives for a kind; one that is not given is 0. */
  function Said(claim: Claim, kind: Kind): nat {
    match kind
    case Object => (match claim.objects case Some(n) => n case None => 0)
    case Edge => (match claim.edges case Some(n) => n case None => 0)
    case Vector => (match claim.vectors case Some(n) => n case None => 0)
    case _ => 0
  }

  /** The claims match the lines, and cover every type that has any. */
  ghost predicate Matches(claims: seq<Claim>, body: seq<Line>) {
    && (forall i, kind :: 0 <= i < |claims| && DataKind(kind) ==>
      Said(claims[i], kind) == TallyOf(body, claims[i].typeName, kind))
    && (forall i :: 0 <= i < |body| && IsData(body[i]) ==> Claims(claims, TypeOf(body[i])))
  }

  predicate DistinctTypes(claims: seq<Claim>) {
    forall i, j :: 0 <= i < j < |claims| ==> claims[i].typeName != claims[j].typeName
  }

  /** JSON objects have distinct keys. */
  predicate JsonKeys(ls: seq<Line>) {
    forall i :: 0 <= i < |ls| && ls[i].Parsed? && ls[i].json.counts.Some? ==> DistinctTypes(ls[i].json.counts.value)
  }

  ghost predicate WellFormed(ds: seq<Line>) {
    var n := |ds| - 1;
    && n >= 1
    && IsHeader(ds[0]) && ds[0].json.format == Some(FORMAT)
    && (forall i :: 1 <= i < n ==> IsData(ds[i]) || IsSchema(ds[i]))
    && IsTrailer(ds[n]) && ds[n].json.complete == Some(true) && ds[n].json.counts.Some?
    && Matches(ds[n].json.counts.value, ds[1..n])
  }

  // ---- Tallies ----

  lemma {:induction false} TallyAppend(a: seq<Line>, b: seq<Line>, t: string, kind: Kind)
    ensures TallyOf(a + b, t, kind) == TallyOf(a, t, kind) + TallyOf(b, t, kind)
    decreases |b|
  {
    if b == [] {
      assert a + b == a;
    } else {
      var n := |b| - 1;
      assert (a + b)[..|a| + n] == a + b[..n];
      TallyAppend(a, b[..n], t, kind);
    }
  }

  predicate HasType(ls: seq<Line>, t: string) {
    exists i :: 0 <= i < |ls| && IsData(ls[i]) && TypeOf(ls[i]) == t
  }

  /** A line counts for its own type and kind. */
  lemma {:induction false} TallyPositive(ls: seq<Line>, i: nat)
    requires i < |ls| && IsData(ls[i])
    ensures TallyOf(ls, TypeOf(ls[i]), ls[i].json.kind) > 0
  {
    var n := |ls| - 1;
    if i >= n {
    } else {
      TallyPositive(ls[..n], i);
    }
  }

  lemma {:induction false} TallyNeedsLine(ls: seq<Line>, t: string, kind: Kind)
    requires DataKind(kind) && TallyOf(ls, t, kind) > 0
    ensures HasType(ls, t)
    decreases |ls|
  {
    var n := |ls| - 1;
    if One(ls[n], t, kind) == 0 {
      TallyNeedsLine(ls[..n], t, kind);
      var i :| 0 <= i < n && IsData(ls[..n][i]) && TypeOf(ls[..n][i]) == t;
      assert ls[..n][i] == ls[i];
    }
  }

  /** What the claims say in all, and the tallies of the claimed types. */
  function Claimed(claims: seq<Claim>, kind: Kind): nat
    requires DataKind(kind)
  {
    if claims == [] then 0 else Claimed(claims[..|claims| - 1], kind) + claims[|claims| - 1].Wanted().Of(kind)
  }

  function TallySum(claims: seq<Claim>, ls: seq<Line>, kind: Kind): nat {
    if claims == [] then 0 else
    TallySum(claims[..|claims| - 1], ls, kind) + TallyOf(ls, claims[|claims| - 1].typeName, kind)
  }

  /** One line more adds one, where its type is claimed. */
  lemma {:induction false} SumOneMore(claims: seq<Claim>, ls: seq<Line>, l: Line, kind: Kind)
    requires DistinctTypes(claims) && DataKind(kind)
    ensures TallySum(claims, ls + [l], kind) ==
      TallySum(claims, ls, kind) + if l.Parsed? && l.json.kind == kind && Claims(claims, TypeOf(l)) then 1 else 0
    decreases |claims|
  {
    if claims == [] {
    } else {
      var n := |claims| - 1;
      SumOneMore(claims[..n], ls, l, kind);
      assert (ls + [l])[..|ls|] == ls;
      if l.Parsed? {
        ClaimsLast(claims, TypeOf(l));
        assert claims[n].typeName == TypeOf(l) ==> !Claims(claims[..n], TypeOf(l));
      }
    }
  }

  lemma ClaimsLast(claims: seq<Claim>, t: string)
    requires claims != []
    ensures Claims(claims, t) <==> Claims(claims[..|claims| - 1], t) || claims[|claims| - 1].typeName == t
  {
    var n := |claims| - 1;
    if Claims(claims[..n], t) {
      var i :| 0 <= i < n && claims[..n][i].typeName == t;
      assert claims[i].typeName == t;
    }
  }

  lemma {:induction false} SumEmpty(claims: seq<Claim>, ls: seq<Line>, kind: Kind)
    requires ls == []
    ensures TallySum(claims, ls, kind) == 0
    decreases |claims|
  {
    if claims == [] {
    } else {
      SumEmpty(claims[..|claims| - 1], ls, kind);
    }
  }

  lemma {:induction false} SumIsTotal(claims: seq<Claim>, ls: seq<Line>, kind: Kind)
    requires DistinctTypes(claims) && DataKind(kind)
    requires forall i :: 0 <= i < |ls| && IsData(ls[i]) ==> Claims(claims, TypeOf(ls[i]))
    ensures TallySum(claims, ls, kind) == TotalOf(ls, kind)
    decreases |ls|
  {
    if ls == [] {
      SumEmpty(claims, ls, kind);
    } else {
      var n := |ls| - 1;
      assert ls == ls[..n] + [ls[n]];
      SumIsTotal(claims, ls[..n], kind);
      SumOneMore(claims, ls[..n], ls[n], kind);
    }
  }

  lemma {:induction false} ClaimedIsSum(claims: seq<Claim>, body: seq<Line>, kind: Kind)
    requires DataKind(kind)
    requires forall i :: 0 <= i < |claims| ==> claims[i].Wanted().Of(kind) == TallyOf(body, claims[i].typeName, kind)
    ensures Claimed(claims, kind) == TallySum(claims, body, kind)
    decreases |claims|
  {
    if claims == [] {
    } else {
      ClaimedIsSum(claims[..|claims| - 1], body, kind);
    }
  }

  /** Matching claims add up to the lines of the file. */
  lemma ClaimsAreTotals(claims: seq<Claim>, body: seq<Line>, kind: Kind)
    requires DistinctTypes(claims) && Matches(claims, body) && DataKind(kind)
    ensures Claimed(claims, kind) == TotalOf(body, kind)
  {
    ClaimedIsSum(claims, body, kind);
    SumIsTotal(claims, body, kind);
  }

  // ---- Damage is detected ----

  /** The first lines of a file, blanks removed, are the first of the lines with blanks removed. */
  lemma {:induction false} NonBlankPrefix(ls: seq<Line>, n: nat)
    requires n <= |ls|
    ensures NonBlank(ls[..n]) <= NonBlank(ls)
    ensures n < |ls| && ls[n] != Blank ==> NonBlank(ls[..n]) + [ls[n]] <= NonBlank(ls)
  {
    if n < |ls| {
      var m := |ls| - 1;
      NonBlankPrefix(ls[..m], n);
      assert ls[..m][..n] == ls[..n];
    } else {
      assert ls[..n] == ls;
    }
  }

  lemma ProperPrefixRejected(ds: seq<Line>, k: nat)
    requires WellFormed(ds) && k < |ds|
    ensures !WellFormed(ds[..k])
  {
  }

  /** A file cut before its trailer is rejected, wherever the cut. */
  lemma TruncationRejected(ls: seq<Line>, m: nat, n: nat)
    requires WellFormed(NonBlank(ls)) && n <= m < |ls| && IsTrailer(ls[m])
    ensures !WellFormed(NonBlank(ls[..n]))
  {
    ShorterPrefix(ls, m, n);
    ProperPrefixRejected(NonBlank(ls), |NonBlank(ls[..n])|);
  }

  lemma ShorterPrefix(ls: seq<Line>, m: nat, n: nat)
    requires n <= m < |ls| && ls[m] != Blank
    ensures |NonBlank(ls[..n])| < |NonBlank(ls)| && NonBlank(ls[..n]) == NonBlank(ls)[..|NonBlank(ls[..n])|]
  {
    NonBlankPrefix(ls, m);
    NonBlankPrefix(ls, n);
    NonBlankPrefix(ls[..m], n);
    assert ls[..m][..n] == ls[..n];
  }

  lemma TallyDiffers(a: seq<Line>, l: Line, b: seq<Line>, t: string, kind: Kind)
    requires IsData(l) && t == TypeOf(l) && kind == l.json.kind
    ensures TallyOf(a + [l] + b, t, kind) == TallyOf(a + b, t, kind) + 1
  {
    TallyAppend(a + [l], b, t, kind);
    TallyAppend(a, [l], t, kind);
    TallyAppend(a, b, t, kind);
  }

  /** Two bodies that match the same claims tally alike. */
  lemma SameClaimsSameTally(claims: seq<Claim>, a: seq<Line>, b: seq<Line>, t: string, kind: Kind)
    requires Matches(claims, a) && Matches(claims, b) && DataKind(kind)
    ensures TallyOf(a, t, kind) == TallyOf(b, t, kind)
  {
    if Claims(claims, t) {
      var i :| 0 <= i < |claims| && claims[i].typeName == t;
      assert claims[i].Wanted().Of(kind) == TallyOf(a, t, kind) == TallyOf(b, t, kind);
    } else {
      UnclaimedZero(claims, a, t, kind);
      UnclaimedZero(claims, b, t, kind);
    }
  }

  lemma UnclaimedZero(claims: seq<Claim>, body: seq<Line>, t: string, kind: Kind)
    requires Matches(claims, body) && !Claims(claims, t) && DataKind(kind)
    ensures TallyOf(body, t, kind) == 0
  {
    if TallyOf(body, t, kind) > 0 {
      TallyNeedsLine(body, t, kind);
    }
  }

  lemma NotBothMatch(claims: seq<Claim>, with: seq<Line>, without: seq<Line>, t: string, kind: Kind)
    requires DataKind(kind) && TallyOf(with, t, kind) != TallyOf(without, t, kind)
    ensures !Matches(claims, with) || !Matches(claims, without)
  {
    if Matches(claims, with) && Matches(claims, without) {
      SameClaimsSameTally(claims, with, without, t, kind);
    }
  }

  /** Any one data line dropped, or put back: at most one of the two files is accepted. */
  lemma OneLineDetected(head: Line, a: seq<Line>, l: Line, b: seq<Line>, trailer: Line)
    requires IsData(l)
    ensures !(WellFormed([head] + (a + [l] + b) + [trailer]) && WellFormed([head] + (a + b) + [trailer]))
  {
    var with, without := [head] + (a + [l] + b) + [trailer], [head] + (a + b) + [trailer];
    assert with[1..|with| - 1] == a + [l] + b && without[1..|without| - 1] == a + b;
    if trailer.Parsed? && trailer.json.counts.Some? {
      TallyDiffers(a, l, b, TypeOf(l), l.json.kind);
      NotBothMatch(trailer.json.counts.value, a + [l] + b, a + b, TypeOf(l), l.json.kind);
    }
  }

  lemma {:induction false} NonBlankAppend(a: seq<Line>, b: seq<Line>)
    ensures NonBlank(a + b) == NonBlank(a) + NonBlank(b)
    decreases |b|
  {
    if b == [] {
      assert a + b == a;
    } else {
      var n := |b| - 1;
      assert (a + b)[..|a| + n] == a + b[..n];
      NonBlankAppend(a, b[..n]);
    }
  }

  lemma NonBlankAround(a: seq<Line>, l: Line, b: seq<Line>)
    requires l != Blank
    ensures NonBlank(a + [l] + b) == NonBlank(a) + [l] + NonBlank(b)
  {
    NonBlankOne(l);
    NonBlankAppend(a, [l]);
    NonBlankAppend(a + [l], b);
  }

  lemma NonBlankOne(l: Line)
    requires l != Blank
    ensures NonBlank([l]) == [l]
  {
    assert [l][..0] == [];
  }

  /** A data line inside a well-formed list lies between its header and its trailer. */
  lemma OneLineInside(ds: seq<Line>, a: seq<Line>, l: Line, b: seq<Line>)
    requires WellFormed(ds) && IsData(l) && ds == a + [l] + b
    ensures a != [] && b != []
  {
    assert ds[|a|] == l;
  }

  /** With one data line more or less, at most one of two lists is well formed. */
  lemma OneLineEither(a: seq<Line>, l: Line, b: seq<Line>)
    requires IsData(l)
    ensures !(WellFormed(a + [l] + b) && WellFormed(a + b))
  {
    if WellFormed(a + [l] + b) {
      OneLineInside(a + [l] + b, a, l, b);
      var n := |b| - 1;
      assert a + [l] + b == [a[0]] + (a[1..] + [l] + b[..n]) + [b[n]];
      assert a + b == [a[0]] + (a[1..] + b[..n]) + [b[n]];
      OneLineDetected(a[0], a[1..], l, b[..n], b[n]);
    }
  }

  /** Dropping any data line of an accepted file, blank lines and all, gets it rejected. */
  lemma DropRejected(a: seq<Line>, l: Line, b: seq<Line>)
    requires IsData(l) && WellFormed(NonBlank(a + [l] + b))
    ensures !WellFormed(NonBlank(a + b))
  {
    NonBlankAround(a, l, b);
    NonBlankAppend(a, b);
    OneLineEither(NonBlank(a), l, NonBlank(b));
  }

  /** Duplicating any data line of an accepted file gets it rejected. */
  lemma DuplicateRejected(a: seq<Line>, l: Line, b: seq<Line>)
    requires IsData(l) && WellFormed(NonBlank(a + [l] + b))
    ensures !WellFormed(NonBlank(a + [l] + [l] + b))
  {
    var c := [l] + b;
    NonBlankAround(a, l, b);
    assert a + [l] + [l] + b == a + [l] + c && a + [l] + b == a + c;
    NonBlankAround(a, l, c);
    NonBlankAppend(a, c);
    OneLineEither(NonBlank(a), l, NonBlank(c));
  }

  // ---- The verifier ----

  function Got(tally: map<string, Counts>, t: string): Counts { if t in tally then tally[t] else Counts(0, 0, 0) }

  /** The tally of the lines read so far; a type without data lines has no entry. */
  ghost predicate TallyIs(tally: map<string, Counts>, body: seq<Line>) {
    && (forall t, kind :: DataKind(kind) ==> Got(tally, t).Of(kind) == TallyOf(body, t, kind))
    && (forall t :: t in tally ==> HasType(body, t))
  }

  lemma TallyLast(body: seq<Line>, l: Line, t: string, kind: Kind)
    ensures TallyOf(body + [l], t, kind) == TallyOf(body, t, kind) + One(l, t, kind)
  {
    assert (body + [l])[..|body|] == body;
  }

  lemma HasTypeMore(body: seq<Line>, l: Line, t: string)
    requires HasType(body, t) || (IsData(l) && TypeOf(l) == t)
    ensures HasType(body + [l], t)
  {
    if HasType(body, t) {
      var i :| 0 <= i < |body| && IsData(body[i]) && TypeOf(body[i]) == t;
      assert (body + [l])[i] == body[i];
    } else {
      assert (body + [l])[|body|] == l;
    }
  }

  /** One more line of its type and kind. */
  function Bump(tally: map<string, Counts>, l: Line): map<string, Counts>
    requires IsData(l)
  {
    tally[TypeOf(l) := Got(tally, TypeOf(l)).AddOne(l.json.kind)]
  }

  lemma TallyAddData(tally: map<string, Counts>, body: seq<Line>, l: Line)
    requires TallyIs(tally, body) && IsData(l)
    ensures TallyIs(Bump(tally, l), body + [l])
  {
    forall t, kind | DataKind(kind) ensures Got(Bump(tally, l), t).Of(kind) == TallyOf(body + [l], t, kind) {
      TallyLast(body, l, t, kind);
      assert Got(tally, t).Of(kind) == TallyOf(body, t, kind);
    }
    forall t | t in Bump(tally, l) ensures HasType(body + [l], t) {
      HasTypeMore(body, l, t);
    }
  }

  lemma TallyAddOther(tally: map<string, Counts>, body: seq<Line>, l: Line)
    requires TallyIs(tally, body) && !IsData(l)
    ensures TallyIs(tally, body + [l])
  {
    forall t, kind | DataKind(kind) ensures Got(tally, t).Of(kind) == TallyOf(body + [l], t, kind) {
      TallyLast(body, l, t, kind);
    }
    forall t | t in tally ensures HasType(body + [l], t) {
      HasTypeMore(body, l, t);
    }
  }

  /** Lines 1 to k-1 are data or schema lines. */
  ghost predicate BodyTo(ds: seq<Line>, k: nat) {
    && 1 <= k <= |ds| && IsHeader(ds[0]) && ds[0].json.format == Some(FORMAT)
    && forall j :: 1 <= j < k ==> IsData(ds[j]) || IsSchema(ds[j])
  }

  /** The last line is a trailer with counts. */
  predicate HasClaims(ds: seq<Line>) { |ds| > 1 && IsTrailer(ds[|ds| - 1]) && ds[|ds| - 1].json.counts.Some? }

  function ClaimsOf(ds: seq<Line>): seq<Claim>
    requires HasClaims(ds)
  {
    ds[|ds| - 1].json.counts.value
  }

  /** A claim of the type, differing from the lines in some kind. */
  ghost predicate Misclaims(claims: seq<Claim>, body: seq<Line>, t: string) {
    exists i, kind ::
      && 0 <= i < |claims| && claims[i].typeName == t
      && DataKind(kind) && Said(claims[i], kind) != TallyOf(body, t, kind)
  }

  /** What each error says of the lines. */
  ghost predicate Explains(e: Error, ds: seq<Line>) {
    match e
    case ReadError => Unreadable in ds
    case EmptyFile => ds == []
    case FirstNotJson => ds != [] && ds[0] == NotJson
    case FirstNotHeader => ds != [] && ds[0].Parsed? && !IsHeader(ds[0])
    case UnknownFormat => ds != [] && IsHeader(ds[0]) && ds[0].json.format != Some(FORMAT)
    case AfterTrailer => exists k :: 1 <= k < |ds| - 1 && IsTrailer(ds[k])
    case InvalidJson => exists k :: 1 <= k < |ds| && ds[k] == NotJson
    case SecondHeader => exists k :: 1 <= k < |ds| && IsHeader(ds[k])
    case UnknownKind => exists k :: 1 <= k < |ds| && ds[k].Parsed? && ds[k].json.kind == Unknown
    case NoTrailer => BodyTo(ds, |ds|)
    case NotComplete => ds != [] && IsTrailer(ds[|ds| - 1]) && ds[|ds| - 1].json.complete != Some(true)
    case NoCounts => ds != [] && IsTrailer(ds[|ds| - 1]) && ds[|ds| - 1].json.counts.None?
    case Mismatch(t) => HasClaims(ds) && Misclaims(ClaimsOf(ds), ds[1..|ds| - 1], t)
    case NotInTrailer(t) => HasClaims(ds) && HasType(ds[1..|ds| - 1], t) && !Claims(ClaimsOf(ds), t)
  }

  /** Find the header: the first line that is not blank. */
  method ReadHeader(lines: seq<Line>) returns (error: Option<Error>, next: nat)
    ensures error.Some? ==> Explains(error.value, NonBlank(lines)) && !WellFormed(NonBlank(lines))
    ensures error.None? ==>
      0 < next <= |lines| && NonBlank(lines[..next]) == [lines[next - 1]] && BodyTo(NonBlank(lines), 1)
  {
    var i := 0;
    while i < |lines| && lines[i] == Blank
      invariant i <= |lines| && NonBlank(lines[..i]) == []
    {
      assert lines[..i + 1][..i] == lines[..i];
      i := i + 1;
    }
    next := 0;
    if i == |lines| {
      assert lines[..i] == lines;
      return Some(EmptyFile), next;
    }
    NonBlankPrefix(lines, i);
    var head := lines[i];
    assert NonBlank(lines)[0] == head;
    if head == Unreadable { return Some(ReadError), next; }
    if head == NotJson { return Some(FirstNotJson), next; }
    if !IsHeader(head) { return Some(FirstNotHeader), next; }
    if head.json.format != Some(FORMAT) { return Some(UnknownFormat), next; }
    error, next := None, i + 1;
    assert lines[..i + 1][..i] == lines[..i];
  }

  /** How far the lines have been read: `k` of them, the last the trailer once there is one. */
  ghost predicate Reading(ds: seq<Line>, k: nat, tally: map<string, Counts>, trailer: Option<Json>) {
    if trailer.None? then BodyTo(ds, k) && TallyIs(tally, ds[1..k])
    else (
      && 2 <= k <= |ds| && BodyTo(ds, k - 1) && TallyIs(tally, ds[1..k - 1])
      && ds[k - 1] == Parsed(trailer.value) && trailer.value.kind == Trailer
    )
  }

  /** One line that is not blank. */
  method ReadLine(l: Line, tally: map<string, Counts>, trailer: Option<Json>, ghost ds: seq<Line>, ghost k: nat)
    returns (error: Option<Error>, tally': map<string, Counts>, trailer': Option<Json>)
    requires Reading(ds, k, tally, trailer) && k < |ds| && ds[k] == l && l != Blank
    ensures error.None? ==> Reading(ds, k + 1, tally', trailer')
    ensures error.Some? ==> Explains(error.value, ds) && !WellFormed(ds)
  {
    tally', trailer' := tally, trailer;
    if l == Unreadable { return Some(ReadError), tally', trailer'; }
    if trailer.Some? {
      assert IsTrailer(ds[k - 1]);
      return Some(AfterTrailer), tally', trailer';
    }
    if l == NotJson { return Some(InvalidJson), tally', trailer'; }
    error := None;
    assert ds[1..k + 1] == ds[1..k] + [l];
    match l.json.kind
    case Schema => TallyAddOther(tally, ds[1..k], l);
    case Trailer => trailer' := Some(l.json);
    case Header => error := Some(SecondHeader);
    case Unknown => error := Some(UnknownKind);
    case _ =>
      TallyAddData(tally, ds[1..k], l);
      tally' := tally[TypeOf(l) := Got(tally, TypeOf(l)).AddOne(l.json.kind)];
  }

  /** Tally the lines after the header up to the end of the file. */
  method ReadBody(lines: seq<Line>, next: nat)
    returns (error: Option<Error>, tally: map<string, Counts>, trailer: Option<Json>)
    requires 0 < next <= |lines| && |NonBlank(lines[..next])| == 1 && BodyTo(NonBlank(lines), 1)
    ensures error.None? ==> Reading(NonBlank(lines), |NonBlank(lines)|, tally, trailer)
    ensures error.Some? ==> Explains(error.value, NonBlank(lines)) && !WellFormed(NonBlank(lines))
  {
    ghost var ds, k: nat := NonBlank(lines), 1;
    tally, trailer, error := map[], None, None;
    for i := next to |lines|
      invariant k == |NonBlank(lines[..i])| <= |ds| && Reading(ds, k, tally, trailer)
      invariant error.None?
    {
      assert lines[..i + 1][..i] == lines[..i];
      if lines[i] != Blank {
        NonBlankPrefix(lines, i);
        error, tally, trailer := ReadLine(lines[i], tally, trailer, ds, k);
        if error.Some? { return; }
        k := k + 1;
      }
    }
    assert lines[..|lines|] == lines;
  }

  /** The claims are the tally, type by type. */
  ghost predicate TallyMatches(claims: seq<Claim>, tally: map<string, Counts>) {
    && (forall i :: 0 <= i < |claims| ==> claims[i].Wanted() == Got(tally, claims[i].typeName))
    && (forall t :: t in tally ==> Claims(claims, t))
  }

  /** What checking the counts can find. */
  ghost predicate CountsResult(claims: seq<Claim>, tally: map<string, Counts>, r: Result) {
    match r
    case Ok(report) =>
      && report.types == |claims| && TallyMatches(claims, tally)
      && forall kind :: DataKind(kind) ==> report.totals.Of(kind) == Claimed(claims, kind)
    case Err(Mismatch(t)) => exists i ::
      0 <= i < |claims| && claims[i].typeName == t && claims[i].Wanted() != Got(tally, t)
    case Err(NotInTrailer(t)) => t in tally && !Claims(claims, t)
    case Err(_) => false
  }

  lemma ClaimsOneMore(claims: seq<Claim>, i: nat)
    requires i < |claims|
    ensures forall t :: Claims(claims[..i + 1], t) <==> Claims(claims[..i], t) || t == claims[i].typeName
  {
    assert claims[..i + 1][..i] == claims[..i];
    forall t ensures Claims(claims[..i + 1], t) <==> Claims(claims[..i], t) || t == claims[i].typeName {
      ClaimsLast(claims[..i + 1], t);
    }
  }

  /** Hold the claims against the tally, taking each type out of it. */
  method CheckCounts(claims: seq<Claim>, tally: map<string, Counts>) returns (r: Result)
    requires DistinctTypes(claims)
    ensures CountsResult(claims, tally, r)
  {
    var rest, total := tally, Counts(0, 0, 0);
    for i := 0 to |claims|
      invariant forall kind :: DataKind(kind) ==> total.Of(kind) == Claimed(claims[..i], kind)
      invariant forall j :: 0 <= j < i ==> claims[j].Wanted() == Got(tally, claims[j].typeName)
      invariant forall t :: t in rest <==> t in tally && !Claims(claims[..i], t)
      invariant forall t :: t in rest ==> rest[t] == tally[t]
    {
      assert claims[..i + 1][..i] == claims[..i];
      var t := claims[i].typeName;
      var want, got := claims[i].Wanted(), Got(rest, t);
      assert !Claims(claims[..i], t);
      rest := rest - {t};
      ClaimsOneMore(claims, i);
      if got != want {
        return Err(Mismatch(t));
      }
      total := total.Plus(want);
    }
    assert claims[..|claims|] == claims;
    if rest != map[] {
      var t :| t in rest;
      return Err(NotInTrailer(t));
    }
    return Ok(Report(total, |claims|));
  }

  lemma CountsDiffer(a: Counts, b: Counts)
    ensures a == b <==> forall kind :: DataKind(kind) ==> a.Of(kind) == b.Of(kind)
  {
    if a != b {
      assert a.Of(Object) != b.Of(Object) || a.Of(Edge) != b.Of(Edge) || a.Of(Vector) != b.Of(Vector);
    }
  }

  /** The tally stands for the lines. */
  lemma TallyMatchesIff(claims: seq<Claim>, tally: map<string, Counts>, body: seq<Line>)
    requires TallyIs(tally, body)
    ensures TallyMatches(claims, tally) <==> Matches(claims, body)
  {
    if TallyMatches(claims, tally) {
      forall i | 0 <= i < |body| && IsData(body[i]) ensures Claims(claims, TypeOf(body[i])) {
        TallyPositive(body, i);
        assert Got(tally, TypeOf(body[i])).Of(body[i].json.kind) > 0;
      }
    }
    if Matches(claims, body) {
      forall i | 0 <= i < |claims| ensures claims[i].Wanted() == Got(tally, claims[i].typeName) {
        CountsDiffer(claims[i].Wanted(), Got(tally, claims[i].typeName));
      }
      forall t | t in tally ensures Claims(claims, t) {
        var i :| 0 <= i < |body| && IsData(body[i]) && TypeOf(body[i]) == t;
      }
    }
  }

  lemma {:induction false} NonBlankMember(ls: seq<Line>, l: Line)
    requires l in NonBlank(ls)
    ensures l in ls
  {
    if l != ls[|ls| - 1] {
      NonBlankMember(ls[..|ls| - 1], l);
    }
  }

  lemma TotalOfBody(ds: seq<Line>, kind: Kind)
    requires |ds| > 1 && IsHeader(ds[0]) && IsTrailer(ds[|ds| - 1]) && DataKind(kind)
    ensures TotalOf(ds, kind) == TotalOf(ds[1..|ds| - 1], kind)
  {
    var n := |ds| - 1;
    TotalSkipsHeader(ds[..n], kind);
    assert ds[..n][1..] == ds[1..n];
  }

  lemma {:induction false} TotalSkipsHeader(ds: seq<Line>, kind: Kind)
    requires ds != [] && IsHeader(ds[0]) && DataKind(kind)
    ensures TotalOf(ds, kind) == TotalOf(ds[1..], kind)
    decreases |ds|
  {
    var n := |ds| - 1;
    if n > 0 {
      TotalSkipsHeader(ds[..n], kind);
      assert ds[..n][1..] == ds[1..][..n - 1];
    } else {
      assert ds[1..] == [] && ds[..0] == [];
    }
  }

  /** With everything else in place the counts decide. */
  lemma CountsDecide(ds: seq<Line>, tally: map<string, Counts>, trailer: Json, r: Result)
    requires Reading(ds, |ds|, tally, Some(trailer)) && trailer.complete == Some(true) && trailer.counts.Some?
    requires DistinctTypes(trailer.counts.value) && CountsResult(trailer.counts.value, tally, r)
    ensures r.Ok? <==> WellFormed(ds)
    ensures r.Ok? ==> forall kind :: DataKind(kind) ==> r.report.totals.Of(kind) == TotalOf(ds, kind)
    ensures r.Err? ==> Explains(r.error, ds)
  {
    var claims, body := trailer.counts.value, ds[1..|ds| - 1];
    TallyMatchesIff(claims, tally, body);
    match r
    case Ok(_) =>
      forall kind | DataKind(kind) ensures r.report.totals.Of(kind) == TotalOf(ds, kind) {
        ClaimsAreTotals(claims, body, kind);
        TotalOfBody(ds, kind);
      }
    case Err(Mismatch(t)) =>
      CountsWrong(claims, tally, body, t);
    case Err(NotInTrailer(t)) =>
    case Err(_) =>
  }

  lemma CountsWrong(claims: seq<Claim>, tally: map<string, Counts>, body: seq<Line>, t: string)
    requires TallyIs(tally, body)
    requires exists i :: 0 <= i < |claims| && claims[i].typeName == t && claims[i].Wanted() != Got(tally, t)
    ensures Misclaims(claims, body, t)
  {
    var i :| 0 <= i < |claims| && claims[i].typeName == t && claims[i].Wanted() != Got(tally, t);
    CountsDiffer(claims[i].Wanted(), Got(tally, t));
    var kind :| DataKind(kind) && claims[i].Wanted().Of(kind) != Got(tally, t).Of(kind);
    assert Got(tally, t).Of(kind) == TallyOf(body, t, kind);
  }

  /** Accepts exactly the well-formed files, reports their line counts, and says what is wrong
      with the others. */
  method VerifyExport(lines: seq<Line>) returns (r: Result)
    requires JsonKeys(lines)
    ensures r.Ok? <==> WellFormed(NonBlank(lines))
    ensures r.Ok? ==> forall kind :: DataKind(kind) ==> r.report.totals.Of(kind) == TotalOf(NonBlank(lines), kind)
    ensures r.Ok? ==> r.report.types == |ClaimsOf(NonBlank(lines))|
    ensures r.Err? ==> Explains(r.error, NonBlank(lines))
  {
    var error, next := ReadHeader(lines);
    if error.Some? { return Err(error.value); }
    var tally, trailer;
    error, tally, trailer := ReadBody(lines, next);
    if error.Some? { return Err(error.value); }
    ghost var ds := NonBlank(lines);
    if trailer.None? { return Err(NoTrailer); }
    if trailer.value.complete != Some(true) { return Err(NotComplete); }
    if trailer.value.counts.None? { return Err(NoCounts); }
    NonBlankMember(lines, Parsed(trailer.value));
    r := CheckCounts(trailer.value.counts.value, tally);
    CountsDecide(ds, tally, trailer.value, r);
  }
}
