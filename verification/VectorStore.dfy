/** The in-process vector store (`pkg/vector/memory.go`), with real numbers for floats.  The square
    root is a parameter: any non-negative number with the right square. */
module VectorStore {
  import opened Wrappers

  type Vector = seq<real>

  // ---- cosine similarity ----

  function Dot(a: Vector, b: Vector): real
    requires |a| == |b|
  {
    if |a| == 0 then 0.0 else Dot(a[..|a| - 1], b[..|b| - 1]) + a[|a| - 1] * b[|b| - 1]
  }

  lemma DotGrows(a: Vector, b: Vector)
    requires |a| == |b| > 0
    ensures Dot(a, b) == Dot(a[..|a| - 1], b[..|b| - 1]) + a[|a| - 1] * b[|b| - 1]
  {
  }

  lemma {:induction false} SquaresNonNegative(a: Vector)
    ensures Dot(a, a) >= 0.0
    decreases |a|
  {
    if |a| > 0 { SquaresNonNegative(a[..|a| - 1]); }
  }

  lemma SquareNonNegative(x: real)
    ensures x * x >= 0.0
  {
  }

  /** The step of the Cauchy-Schwarz induction: one more coordinate on each side. */
  lemma OneMoreCoordinate(d: real, p: real, q: real, x: real, y: real, d': real, p': real, q': real)
    requires p >= 0.0 && q >= 0.0 && d * d <= p * q
    requires d' == d + x * y && p' == p + x * x && q' == q + y * y
    ensures d' * d' <= p' * q'
  {
    CrossTerm(d, p, q, x, y);
    assert (d + x * y) * (d + x * y) == d * d + 2.0 * (d * (x * y)) + (x * y) * (x * y);
    assert (p + x * x) * (q + y * y) == p * q + (p * (y * y) + q * (x * x)) + (x * x) * (y * y);
    assert (x * y) * (x * y) == (x * x) * (y * y);
  }

  lemma CrossTerm(d: real, p: real, q: real, x: real, y: real)
    requires p >= 0.0 && q >= 0.0 && d * d <= p * q
    ensures 2.0 * (d * (x * y)) <= p * (y * y) + q * (x * x)
  {
    if p == 0.0 {
      assert d == 0.0 by {
        assert Times(d, d) <= 0.0;
        ZeroSquare(d);
      }
      SquareNonNegative(x);
      NonNegativeProduct(q, x * x);
    } else {
      // p times the difference is a sum of non-negative terms
      var s := p * y - d * x;
      SquareNonNegative(s);
      SquareNonNegative(x);
      NonNegativeProduct(p * q - d * d, x * x);
      var gap := p * (y * y) + q * (x * x) - 2.0 * (d * (x * y));
      assert p * gap == s * s + (p * q - d * d) * (x * x);
      PositiveFactor(p, gap);
    }
  }

  /** A product kept folded, for the sign argument below. */
  function Times(a: real, b: real): real { a * b }

  lemma PositiveTimes(a: real, b: real)
    requires a > 0.0 && b > 0.0
    ensures Times(a, b) > 0.0
  {
  }

  lemma SquareEven(d: real)
    ensures Times(-d, -d) == Times(d, d)
  {
  }

  lemma ZeroSquare(d: real)
    requires Times(d, d) <= 0.0
    ensures d == 0.0
  {
    if d > 0.0 {
      PositiveTimes(d, d);
    } else if d < 0.0 {
      PositiveTimes(-d, -d);
      SquareEven(d);
    }
  }

  lemma PositiveProduct(a: real, b: real)
    requires a > 0.0 && b > 0.0
    ensures a * b > 0.0
  {
  }

  lemma NonNegativeProduct(a: real, b: real)
    requires a >= 0.0 && b >= 0.0
    ensures a * b >= 0.0
  {
  }

  lemma NegativeProduct(p: real, g: real)
    requires p > 0.0 && g > 0.0
    ensures p * -g < 0.0
  {
    PositiveProduct(p, g);
    assert p * -g == -(p * g);
  }

  lemma PositiveFactor(p: real, gap: real)
    requires p > 0.0 && p * gap >= 0.0
    ensures gap >= 0.0
  {
    if gap < 0.0 {
      NegativeProduct(p, -gap);
    }
  }

  /** Cauchy-Schwarz: the squared dot product never exceeds the product of the squared magnitudes. */
  lemma {:induction false} CauchySchwarz(a: Vector, b: Vector)
    requires |a| == |b|
    ensures Dot(a, b) * Dot(a, b) <= Dot(a, a) * Dot(b, b)
    decreases |a|
  {
    if |a| > 0 {
      var a', b' := a[..|a| - 1], b[..|b| - 1];
      DotGrows(a, b);
      DotGrows(a, a);
      DotGrows(b, b);
      SquaresNonNegative(a');
      SquaresNonNegative(b');
      CauchySchwarz(a', b');
      OneMoreCoordinate(Dot(a', b'), Dot(a', a'), Dot(b', b'), a[|a| - 1], b[|b| - 1], Dot(a, b), Dot(a, a), Dot(b, b));
    }
  }

  ghost predicate IsRoot(r: real, x: real) {
    r >= 0.0 && r * r == x
  }

  /** A square root function, right on every non-negative number. */
  ghost predicate SquareRoot(sqrt: real -> real) {
    forall x | x >= 0.0 :: IsRoot(sqrt(x), x)
  }

  lemma RootPositive(sqrt: real -> real, a: Vector)
    requires SquareRoot(sqrt) && Dot(a, a) != 0.0
    ensures sqrt(Dot(a, a)) > 0.0 && sqrt(Dot(a, a)) * sqrt(Dot(a, a)) == Dot(a, a)
  {
    SquaresNonNegative(a);
    assert IsRoot(sqrt(Dot(a, a)), Dot(a, a));
  }

  lemma SquareRegroup(p: real, q: real)
    ensures (p * q) * (p * q) == (p * p) * (q * q)
  {
  }

  predicate Comparable(a: Vector, b: Vector) {
    |a| == |b| > 0 && Dot(a, a) != 0.0 && Dot(b, b) != 0.0
  }

  function Magnitudes(sqrt: real -> real, a: Vector, b: Vector): (m: real)
    requires SquareRoot(sqrt) && Dot(a, a) != 0.0 && Dot(b, b) != 0.0
    ensures m > 0.0 && m * m == Dot(a, a) * Dot(b, b)
  {
    RootPositive(sqrt, a);
    RootPositive(sqrt, b);
    PositiveProduct(sqrt(Dot(a, a)), sqrt(Dot(b, b)));
    SquareRegroup(sqrt(Dot(a, a)), sqrt(Dot(b, b)));
    sqrt(Dot(a, a)) * sqrt(Dot(b, b))
  }

  /** What the cosine means: zero unless both vectors have the same positive length and a magnitude. */
  function Similarity(sqrt: real -> real, a: Vector, b: Vector): real
    requires SquareRoot(sqrt)
  {
    if Comparable(a, b) then Dot(a, b) / Magnitudes(sqrt, a, b) else 0.0
  }

  lemma {:induction false} DotCommutes(a: Vector, b: Vector)
    requires |a| == |b|
    ensures Dot(a, b) == Dot(b, a)
    decreases |a|
  {
    if |a| > 0 { DotCommutes(a[..|a| - 1], b[..|b| - 1]); }
  }

  lemma LargerSquare(d: real, m: real)
    requires 0.0 < m < d
    ensures m * m < d * d
  {
    PositiveProduct(d - m, d + m);
    assert (d - m) * (d + m) == d * d - m * m;
  }

  lemma SquareOrder(d: real, m: real)
    requires m > 0.0 && d * d <= m * m
    ensures -m <= d <= m
  {
    if d > m {
      LargerSquare(d, m);
      assert false;
    } else if -d > m {
      LargerSquare(-d, m);
      assert false;
    }
  }

  lemma QuotientBound(d: real, m: real)
    requires m > 0.0 && -m <= d <= m
    ensures -1.0 <= d / m <= 1.0
  {
  }

  lemma QuotientSelf(m: real)
    requires m != 0.0
    ensures m / m == 1.0
  {
  }

  /** Every score lies between -1 and 1, whatever the vectors. */
  lemma CosineBounded(sqrt: real -> real, a: Vector, b: Vector)
    requires SquareRoot(sqrt)
    ensures -1.0 <= Similarity(sqrt, a, b) <= 1.0
  {
    if Comparable(a, b) {
      CauchySchwarz(a, b);
      SquareOrder(Dot(a, b), Magnitudes(sqrt, a, b));
      QuotientBound(Dot(a, b), Magnitudes(sqrt, a, b));
    }
  }

  /** The bound is reached by a vector against itself, and the order of the two vectors is immaterial. */
  lemma CosineOfItself(sqrt: real -> real, a: Vector, b: Vector)
    requires SquareRoot(sqrt)
    ensures Dot(a, a) != 0.0 ==> Similarity(sqrt, a, a) == 1.0
    ensures Similarity(sqrt, a, b) == Similarity(sqrt, b, a)
  {
    if Dot(a, a) != 0.0 {
      RootPositive(sqrt, a);
      assert Magnitudes(sqrt, a, a) == Dot(a, a);
      QuotientSelf(Dot(a, a));
    }
    if Comparable(a, b) {
      DotCommutes(a, b);
      assert Magnitudes(sqrt, a, b) == Magnitudes(sqrt, b, a);
    }
  }

  /** What a score is, without a quotient: times the two magnitudes it is the dot product. */
  lemma ScoreTimesMagnitudes(sqrt: real -> real, a: Vector, b: Vector)
    requires SquareRoot(sqrt)
    ensures |a| == |b| > 0 && Dot(a, a) != 0.0 && Dot(b, b) != 0.0 ==>
              Similarity(sqrt, a, b) * (sqrt(Dot(a, a)) * sqrt(Dot(b, b))) == Dot(a, b)
    ensures |a| != |b| || a == [] || Dot(a, a) == 0.0 || Dot(b, b) == 0.0 ==> Similarity(sqrt, a, b) == 0.0
  {
    if Comparable(a, b) {
      QuotientTimes(Dot(a, b), Magnitudes(sqrt, a, b));
    }
  }

  lemma QuotientTimes(d: real, m: real)
    requires m != 0.0
    ensures d / m * m == d
  {
  }

  /** The dot product is the sum of the products of the coordinates: it is linear in each coordinate. */
  lemma {:induction false} DotCoordinate(a: Vector, b: Vector, i: nat, x: real)
    requires |a| == |b| && i < |b|
    ensures Dot(a, b[i := x]) == Dot(a, b) + a[i] * (x - b[i])
    decreases |b|
  {
    var n := |b| - 1;
    DotGrows(a, b);
    DotGrows(a, b[i := x]);
    Distribute(a[i], x, b[i]);
    if i < n {
      assert b[i := x][..n] == b[..n][i := x];
      DotCoordinate(a[..n], b[..n], i, x);
    } else {
      assert b[i := x][..n] == b[..n];
    }
  }

  lemma Distribute(a: real, x: real, y: real)
    ensures a * (x - y) == a * x - a * y
  {
  }

  lemma {:induction false} DotWithZero(a: Vector, b: Vector)
    requires |a| == |b| && forall i | 0 <= i < |b| :: b[i] == 0.0
    ensures Dot(a, b) == 0.0
    decreases |a|
  {
    if |a| > 0 { DotWithZero(a[..|a| - 1], b[..|b| - 1]); }
  }

  function Scaled(c: real, a: Vector): (s: Vector)
    ensures |s| == |a| && forall i | 0 <= i < |a| :: s[i] == c * a[i]
  {
    seq(|a|, i requires 0 <= i < |a| => c * a[i])
  }

  lemma ScaledPrefix(c: real, a: Vector, n: nat)
    requires n <= |a|
    ensures Scaled(c, a)[..n] == Scaled(c, a[..n])
  {
    forall i | 0 <= i < n ensures Scaled(c, a)[..n][i] == Scaled(c, a[..n])[i] {
      assert a[..n][i] == a[i];
    }
  }

  lemma {:induction false} DotScales(c: real, a: Vector, b: Vector)
    requires |a| == |b|
    ensures Dot(Scaled(c, a), b) == c * Dot(a, b)
    decreases |a|
  {
    if |a| > 0 {
      var n := |a| - 1;
      ScaledPrefix(c, a, n);
      DotScales(c, a[..n], b[..n]);
      DotGrows(a, b);
      DotGrows(Scaled(c, a), b);
      ScaleSum(c, Dot(a[..n], b[..n]), a[n], b[n]);
    }
  }

  lemma ScaleSum(c: real, d: real, x: real, y: real)
    ensures c * d + (c * x) * y == c * (d + x * y)
  {
  }

  lemma ScaledSquare(c: real, a: Vector)
    ensures Dot(Scaled(c, a), Scaled(c, a)) == c * (c * Dot(a, a))
  {
    DotScales(c, a, Scaled(c, a));
    DotCommutes(a, Scaled(c, a));
    DotScales(c, a, a);
  }

  /** Roots are unique, so scaling a vector by a positive factor scales its magnitude. */
  lemma RootScales(sqrt: real -> real, c: real, a: Vector)
    requires SquareRoot(sqrt) && c > 0.0 && Dot(a, a) != 0.0
    ensures Dot(Scaled(c, a), Scaled(c, a)) != 0.0
    ensures sqrt(Dot(Scaled(c, a), Scaled(c, a))) == c * sqrt(Dot(a, a))
  {
    ScaledSquare(c, a);
    RootPositive(sqrt, a);
    SquaresNonNegative(a);
    PositiveProduct(c, Dot(a, a));
    PositiveProduct(c, c * Dot(a, a));
    RootPositive(sqrt, Scaled(c, a));
    SquareOfScaled(c, sqrt(Dot(a, a)));
    PositiveProduct(c, sqrt(Dot(a, a)));
    RootUnique(sqrt(Dot(Scaled(c, a), Scaled(c, a))), c * sqrt(Dot(a, a)));
  }

  lemma SquareOfScaled(c: real, r: real)
    ensures (c * r) * (c * r) == c * (c * (r * r))
  {
  }

  lemma RootUnique(r: real, s: real)
    requires r > 0.0 && s > 0.0 && r * r == s * s
    ensures r == s
  {
    if r < s {
      LargerSquare(s, r);
      assert false;
    } else if s < r {
      LargerSquare(r, s);
      assert false;
    }
  }

  /** Scaling a vector by a positive factor keeps every score. */
  lemma ScalingKeepsScore(sqrt: real -> real, c: real, a: Vector, b: Vector)
    requires SquareRoot(sqrt) && c > 0.0
    ensures Similarity(sqrt, Scaled(c, a), b) == Similarity(sqrt, a, b)
  {
    if Comparable(a, b) {
      RootScales(sqrt, c, a);
      DotScales(c, a, b);
      ScoreTimesMagnitudes(sqrt, a, b);
      ScoreTimesMagnitudes(sqrt, Scaled(c, a), b);
      RootPositive(sqrt, a);
      RootPositive(sqrt, b);
      SameQuotient(c, sqrt(Dot(a, a)), sqrt(Dot(b, b)), Similarity(sqrt, Scaled(c, a), b), Similarity(sqrt, a, b));
    } else if |a| == |b| {
      ScaledSquare(c, a);
      ScaledZero(c, Dot(a, a));
      ScaledZero(c, c * Dot(a, a));
    }
  }

  lemma ScaledZero(c: real, d: real)
    requires c > 0.0
    ensures c * d == 0.0 <==> d == 0.0
  {
    if d > 0.0 {
      PositiveProduct(c, d);
    } else if d < 0.0 {
      NegativeProduct(c, -d);
    }
  }

  lemma SameQuotient(c: real, p: real, q: real, s: real, t: real)
    requires c > 0.0 && p > 0.0 && q > 0.0 && s * ((c * p) * q) == c * (t * (p * q))
    ensures s == t
  {
    var m := c * (p * q);
    PositiveProduct(p, q);
    PositiveProduct(c, p * q);
    assert s * ((c * p) * q) == s * m && c * (t * (p * q)) == t * m;
    CancelFactor(s, t, m);
  }

  lemma CancelFactor(s: real, t: real, m: real)
    requires m > 0.0 && s * m == t * m
    ensures s == t
  {
    assert s * m / m == s && t * m / m == t;
  }

  /** Turning a vector round turns every score round. */
  lemma NegationFlipsScore(sqrt: real -> real, a: Vector, b: Vector)
    requires SquareRoot(sqrt)
    ensures Similarity(sqrt, Scaled(-1.0, a), b) == -Similarity(sqrt, a, b)
  {
    ScaledSquare(-1.0, a);
    if |a| == |b| { DotScales(-1.0, a, b); }
    if Comparable(a, b) {
      assert Magnitudes(sqrt, Scaled(-1.0, a), b) == Magnitudes(sqrt, a, b);
      NegativeQuotient(Dot(a, b), Magnitudes(sqrt, a, b));
    }
  }

  lemma NegativeQuotient(d: real, m: real)
    requires m != 0.0
    ensures (-1.0 * d) / m == -(d / m)
  {
  }

  method Cosine(sqrt: real -> real, a: Vector, b: Vector) returns (score: real)
    requires SquareRoot(sqrt)
    ensures score == Similarity(sqrt, a, b)
    ensures |a| == |b| > 0 && Dot(a, a) != 0.0 && Dot(b, b) != 0.0 ==>
              score * (sqrt(Dot(a, a)) * sqrt(Dot(b, b))) == Dot(a, b)
    ensures |a| != |b| || a == [] || Dot(a, a) == 0.0 || Dot(b, b) == 0.0 ==> score == 0.0
  {
    ScoreTimesMagnitudes(sqrt, a, b);
    if |a| != |b| || |a| == 0 { return 0.0; }
    var dot, magA, magB := 0.0, 0.0, 0.0;
    for i := 0 to |a|
      invariant dot == Dot(a[..i], b[..i])
      invariant magA == Dot(a[..i], a[..i])
      invariant magB == Dot(b[..i], b[..i])
    {
      assert a[..i + 1][..i] == a[..i] && b[..i + 1][..i] == b[..i];
      dot := dot + a[i] * b[i];
      magA := magA + a[i] * a[i];
      magB := magB + b[i] * b[i];
    }
    assert a[..|a|] == a && b[..|b|] == b;
    if magA == 0.0 || magB == 0.0 { return 0.0; }
    var magnitudes := sqrt(magA) * sqrt(magB);
    assert magnitudes == Magnitudes(sqrt, a, b);
    score := dot / magnitudes;
  }

  // ---- metadata filters ----

  datatype Any = Nil | Text(text: string) | Number(number: real) | Flag(flag: bool)

  type Metadata = map<string, Any>

  datatype Document = Document(id: string, content: string, vector: Vector, metadata: Metadata)

  datatype SearchResult = SearchResult(document: Document, score: real)

  /** Reading a missing key gives nil. */
  function Read(meta: Metadata, key: string): Any {
    if key in meta then meta[key] else Nil
  }

  predicate Passes(meta: Metadata, filter: Metadata) {
    forall k <- filter.Keys :: Read(meta, k) == filter[k]
  }

  method MetadataMatches(meta: Metadata, filter: Metadata) returns (matches: bool)
    ensures matches <==> Passes(meta, filter)
  {
    var pending := filter.Keys;
    while pending != {}
      invariant pending <= filter.Keys
      invariant forall k <- filter.Keys - pending :: Read(meta, k) == filter[k]
      decreases |pending|
    {
      var k :| k in pending;
      if Read(meta, k) != filter[k] { return false; }
      pending := pending - {k};
    }
    matches := true;
  }

  // ---- what a search promises ----

  datatype Query = Query(vector: Vector, filter: Metadata)

  type Documents = map<string, Document>

  /** Documents are filed under their own ids. */
  ghost predicate Filed(docs: Documents) {
    forall id <- docs :: docs[id].id == id
  }

  function Matches(docs: Documents, q: Query): set<string> {
    set id | id in docs && Passes(docs[id].metadata, q.filter)
  }

  function Score(sqrt: real -> real, q: Query, d: Document): real
    requires SquareRoot(sqrt)
  {
    Similarity(sqrt, q.vector, d.vector)
  }

  ghost predicate Descending(rs: seq<SearchResult>) {
    forall i, j | 0 <= i < j < |rs| :: rs[i].score >= rs[j].score
  }

  ghost predicate DistinctIds(rs: seq<SearchResult>) {
    forall i, j | 0 <= i < j < |rs| :: rs[i].document.id != rs[j].document.id
  }

  function Ids(rs: seq<SearchResult>): set<string> {
    set i | 0 <= i < |rs| :: rs[i].document.id
  }

  /** Every result is a stored document that passes the filter, with its own score, and none twice. */
  ghost predicate Genuine(sqrt: real -> real, docs: Documents, q: Query, rs: seq<SearchResult>)
    requires SquareRoot(sqrt)
  {
    DistinctIds(rs)
    && (forall r <- rs ::
          && r.document.id in Matches(docs, q)
          && docs[r.document.id] == r.document
          && r.score == Score(sqrt, q, r.document))
  }

  /** No document left out scores above one that was returned. */
  ghost predicate NothingBetterOmitted(sqrt: real -> real, docs: Documents, q: Query, rs: seq<SearchResult>)
    requires SquareRoot(sqrt)
  {
    forall id, i | id in Matches(docs, q) && id !in Ids(rs) && 0 <= i < |rs| ::
      Score(sqrt, q, docs[id]) <= rs[i].score
  }

  function Min(a: int, b: int): int {
    if a < b then a else b
  }

  ghost predicate TopMatches(sqrt: real -> real, docs: Documents, q: Query, topK: nat, rs: seq<SearchResult>)
    requires SquareRoot(sqrt)
  {
    && Genuine(sqrt, docs, q, rs)
    && Descending(rs)
    && |rs| == Min(topK, |Matches(docs, q)|)
    && NothingBetterOmitted(sqrt, docs, q, rs)
  }

  // ---- the answer is determined up to ties ----

  lemma {:induction false} IdsCount(rs: seq<SearchResult>)
    requires DistinctIds(rs)
    ensures |Ids(rs)| == |rs|
    decreases |rs|
  {
    if |rs| > 0 {
      var init, last := rs[..|rs| - 1], rs[|rs| - 1];
      IdsCount(init);
      assert Ids(rs) == Ids(init) + {last.document.id};
    }
  }

  /** A result that scores above one of another answer stands in that answer, too, with the same score. */
  lemma NotOmitted(
    sqrt: real -> real, docs: Documents, q: Query, s: seq<SearchResult>, r: SearchResult, k: nat)
    returns (j: nat)
    requires SquareRoot(sqrt) && Genuine(sqrt, docs, q, s) && NothingBetterOmitted(sqrt, docs, q, s)
    requires r.document.id in Matches(docs, q) && docs[r.document.id] == r.document && r.score == Score(sqrt, q, r.document)
    requires k < |s| && r.score > s[k].score
    ensures j < |s| && s[j].document.id == r.document.id && s[j].score == r.score
  {
    assert r.document.id in Ids(s);
    j :| 0 <= j < |s| && s[j].document.id == r.document.id;
    assert s[j] in s;
  }

  lemma HigherStandsBefore(s: seq<SearchResult>, j: nat, k: nat)
    requires Descending(s) && j < |s| && k < |s| && s[j].score > s[k].score
    ensures j < k && s[j].document.id in Ids(s[..k])
  {
    assert s[..k][j].document.id == s[j].document.id;
  }

  /** If one answer scored higher at place k, its results up to k would all stand before k in the other. */
  lemma StandsBefore(
    sqrt: real -> real, docs: Documents, q: Query, topK: nat,
    r: seq<SearchResult>, s: seq<SearchResult>, k: nat, i: nat)
    requires SquareRoot(sqrt)
    requires TopMatches(sqrt, docs, q, topK, r) && TopMatches(sqrt, docs, q, topK, s)
    requires i <= k < |r| && r[k].score > s[k].score
    ensures r[i].document.id in Ids(s[..k])
  {
    assert r[i] in r && r[i].score >= r[k].score;
    var j := NotOmitted(sqrt, docs, q, s, r[i], k);
    HigherStandsBefore(s, j, k);
  }

  lemma ScoreNotAbove(
    sqrt: real -> real, docs: Documents, q: Query, topK: nat,
    r: seq<SearchResult>, s: seq<SearchResult>, k: nat)
    requires SquareRoot(sqrt)
    requires TopMatches(sqrt, docs, q, topK, r) && TopMatches(sqrt, docs, q, topK, s)
    requires k < |r|
    ensures r[k].score <= s[k].score
  {
    if r[k].score > s[k].score {
      forall i | 0 <= i <= k ensures r[i].document.id in Ids(s[..k]) {
        StandsBefore(sqrt, docs, q, topK, r, s, k, i);
      }
      TooManyIds(r[..k + 1], s[..k]);
      assert false;
    }
  }

  lemma TooManyIds(more: seq<SearchResult>, fewer: seq<SearchResult>)
    requires DistinctIds(more) && DistinctIds(fewer)
    requires forall i | 0 <= i < |more| :: more[i].document.id in Ids(fewer)
    ensures |more| <= |fewer|
  {
    IdsCount(more);
    IdsCount(fewer);
    SubsetSize(Ids(more), Ids(fewer));
  }

  lemma {:induction false} SubsetSize<T>(a: set<T>, b: set<T>)
    requires a <= b
    ensures |a| <= |b|
    decreases a
  {
    if a != {} {
      var x :| x in a;
      SubsetSize(a - {x}, b - {x});
    }
  }

  /** Whatever order the map is walked in and however ties are sorted, the list of scores is the same;
      where no two matches tie, so are the documents. */
  lemma AnswerDetermined(
    sqrt: real -> real, docs: Documents, q: Query, topK: nat, r: seq<SearchResult>, s: seq<SearchResult>)
    requires SquareRoot(sqrt)
    requires TopMatches(sqrt, docs, q, topK, r) && TopMatches(sqrt, docs, q, topK, s)
    ensures |r| == |s| && forall k | 0 <= k < |r| :: r[k].score == s[k].score
    ensures NoTies(sqrt, docs, q) ==> r == s
  {
    forall k | 0 <= k < |r| ensures r[k].score == s[k].score {
      ScoreNotAbove(sqrt, docs, q, topK, r, s, k);
      ScoreNotAbove(sqrt, docs, q, topK, s, r, k);
    }
    if NoTies(sqrt, docs, q) {
      forall k | 0 <= k < |r| ensures r[k] == s[k] {
        assert r[k] in r && s[k] in s;
      }
    }
  }

  ghost predicate NoTies(sqrt: real -> real, docs: Documents, q: Query)
    requires SquareRoot(sqrt)
  {
    forall a, b | a in Matches(docs, q) && b in Matches(docs, q) ::
      Score(sqrt, q, docs[a]) == Score(sqrt, q, docs[b]) ==> a == b
  }

  // ---- the store ----

  /** The documents after storing a batch, one after the other. */
  function Stored(docs: Documents, batch: seq<Document>): Documents {
    if batch == [] then docs else Stored(docs, batch[..|batch| - 1])[batch[|batch| - 1].id := batch[|batch| - 1]]
  }

  lemma {:induction false} StoredKeepsFiled(docs: Documents, batch: seq<Document>)
    requires Filed(docs)
    ensures Filed(Stored(docs, batch))
    decreases |batch|
  {
    if batch != [] { StoredKeepsFiled(docs, batch[..|batch| - 1]); }
  }

  /** The last document of an id wins, and what the batch does not mention stays. */
  lemma {:induction false} StoredMeans(docs: Documents, batch: seq<Document>, id: string)
    ensures match LastOf(batch, id)
            case None => (id in Stored(docs, batch) <==> id in docs) && (id in docs ==> Stored(docs, batch)[id] == docs[id])
            case Some(i) => id in Stored(docs, batch) && Stored(docs, batch)[id] == batch[i]
    decreases |batch|
  {
    if batch != [] { StoredMeans(docs, batch[..|batch| - 1], id); }
  }

  /** Where the last document of an id stands in a batch. */
  function LastOf(batch: seq<Document>, id: string): (last: Option<nat>)
    ensures last.Some? ==> last.value < |batch| && batch[last.value].id == id
    ensures forall i | 0 <= i < |batch| && batch[i].id == id :: last.Some? && i <= last.value
  {
    if batch == [] then None
    else if batch[|batch| - 1].id == id then Some(|batch| - 1)
    else LastOf(batch[..|batch| - 1], id)
  }

  function Elements(ids: seq<string>): set<string> {
    set i | 0 <= i < |ids| :: ids[i]
  }

  lemma ElementsGrow(ids: seq<string>, n: nat)
    requires n < |ids|
    ensures Elements(ids[..n + 1]) == Elements(ids[..n]) + {ids[n]}
  {
    assert ids[..n + 1] == ids[..n] + [ids[n]];
    assert ids[..n + 1][n] == ids[n];
    assert forall i | 0 <= i < n :: ids[..n + 1][i] == ids[..n][i];
  }

  lemma AddCandidate(sqrt: real -> real, docs: Documents, q: Query, rs: seq<SearchResult>, id: string)
    requires SquareRoot(sqrt) && Filed(docs)
    requires Genuine(sqrt, docs, q, rs) && id in Matches(docs, q) && id !in Ids(rs)
    ensures var grown := rs + [SearchResult(docs[id], Score(sqrt, q, docs[id]))];
      Genuine(sqrt, docs, q, grown) && Ids(grown) == Ids(rs) + {id}
  {
    var grown := rs + [SearchResult(docs[id], Score(sqrt, q, docs[id]))];
    assert grown[|rs|].document.id == id;
    assert forall i | 0 <= i < |rs| :: grown[i] == rs[i];
    assert forall i | 0 <= i < |rs| :: rs[i].document.id in Ids(rs);
  }

  lemma SameElements(a: seq<SearchResult>, b: seq<SearchResult>)
    requires multiset(a) == multiset(b)
    ensures forall x :: x in a <==> x in b
    ensures |a| == |b|
  {
    forall x ensures x in a <==> x in b {
      assert x in a <==> x in multiset(a);
    }
    assert |a| == |multiset(a)| == |b|;
  }

  lemma SortedKeepsCandidates(
    sqrt: real -> real, docs: Documents, q: Query, rs: seq<SearchResult>, sorted: seq<SearchResult>)
    requires SquareRoot(sqrt)
    requires Genuine(sqrt, docs, q, rs) && multiset(sorted) == multiset(rs)
    ensures Genuine(sqrt, docs, q, sorted) && Ids(sorted) == Ids(rs)
  {
    SameElements(rs, sorted);
    SameIds(rs, sorted);
    SameIds(sorted, rs);
    IdsCount(rs);
    assert Ids(sorted) == Ids(rs);
    FullCountDistinct(sorted);
  }

  lemma SameIds(a: seq<SearchResult>, b: seq<SearchResult>)
    requires forall x :: x in a <==> x in b
    ensures Ids(a) <= Ids(b)
  {
    forall id | id in Ids(a) ensures id in Ids(b) {
      var i :| 0 <= i < |a| && a[i].document.id == id;
      assert a[i] in b;
      var j :| 0 <= j < |b| && b[j] == a[i];
    }
  }

  /** As many ids as results: no id twice. */
  lemma {:induction false} FullCountDistinct(rs: seq<SearchResult>)
    requires |Ids(rs)| == |rs|
    ensures DistinctIds(rs)
    decreases |rs|
  {
    if |rs| > 0 {
      var init, last := rs[..|rs| - 1], rs[|rs| - 1];
      assert Ids(rs) == Ids(init) + {last.document.id};
      IdsAtMost(init);
      FullCountDistinct(init);
      assert forall i | 0 <= i < |init| :: init[i].document.id in Ids(init);
    }
  }

  lemma {:induction false} IdsAtMost(rs: seq<SearchResult>)
    ensures |Ids(rs)| <= |rs|
    decreases |rs|
  {
    if |rs| > 0 {
      var init, last := rs[..|rs| - 1], rs[|rs| - 1];
      IdsAtMost(init);
      assert Ids(rs) == Ids(init) + {last.document.id};
    }
  }

  lemma PrefixIds(rs: seq<SearchResult>, k: nat)
    requires k <= |rs|
    ensures forall m | 0 <= m < k :: rs[m].document.id in Ids(rs[..k])
  {
    assert forall m | 0 <= m < k :: rs[..k][m] == rs[m];
  }

  lemma CutKeepsTheBest(sqrt: real -> real, docs: Documents, q: Query, sorted: seq<SearchResult>, k: nat)
    requires SquareRoot(sqrt)
    requires Genuine(sqrt, docs, q, sorted) && Descending(sorted) && Ids(sorted) == Matches(docs, q)
    requires k <= |sorted|
    ensures TopMatches(sqrt, docs, q, k, sorted[..k])
  {
    IdsCount(sorted);
    forall id, i | id in Matches(docs, q) && id !in Ids(sorted[..k]) && 0 <= i < k
      ensures Score(sqrt, q, docs[id]) <= sorted[..k][i].score
    {
      assert id in Ids(sorted);
      var j :| 0 <= j < |sorted| && sorted[j].document.id == id;
      assert sorted[j] in sorted;
      PrefixIds(sorted, k);
    }
  }

  function InsertByScore(r: SearchResult, rs: seq<SearchResult>): seq<SearchResult> {
    if |rs| == 0 || r.score > rs[0].score then [r] + rs else [rs[0]] + InsertByScore(r, rs[1..])
  }

  lemma {:induction false} InsertKeepsOrder(r: SearchResult, rs: seq<SearchResult>)
    requires Descending(rs)
    ensures Descending(InsertByScore(r, rs))
    decreases |rs|
  {
    if |rs| > 0 && r.score <= rs[0].score {
      InsertKeepsOrder(r, rs[1..]);
      PrependDescending(rs[0], InsertByScore(r, rs[1..]));
    } else {
      PrependDescending(r, rs);
    }
  }

  lemma PrependDescending(r: SearchResult, rs: seq<SearchResult>)
    requires Descending(rs) && (|rs| > 0 ==> r.score >= rs[0].score)
    ensures Descending([r] + rs)
  {
  }

  lemma {:induction false} InsertAddsOne(r: SearchResult, rs: seq<SearchResult>)
    ensures multiset(InsertByScore(r, rs)) == multiset(rs) + multiset{r}
    decreases |rs|
  {
    if |rs| > 0 && r.score <= rs[0].score {
      InsertAddsOne(r, rs[1..]);
      assert rs == [rs[0]] + rs[1..];
    }
  }

  /** Stands for the library sort, whose treatment of ties is not relied on. */
  method SortByScore(rs: seq<SearchResult>) returns (sorted: seq<SearchResult>)
    ensures Descending(sorted) && multiset(sorted) == multiset(rs)
  {
    sorted := [];
    for i := 0 to |rs|
      invariant Descending(sorted) && multiset(sorted) == multiset(rs[..i])
    {
      InsertKeepsOrder(rs[i], sorted);
      InsertAddsOne(rs[i], sorted);
      sorted := InsertByScore(rs[i], sorted);
      assert rs[..i + 1] == rs[..i] + [rs[i]];
    }
    assert rs[..|rs|] == rs;
  }

  class MemoryVectorStore {
    var docs: Documents

    ghost predicate Valid()
      reads this
    {
      Filed(docs)
    }

    constructor ()
      ensures Valid() && docs == map[]
    {
      docs := map[];
    }

    method Upsert(batch: seq<Document>)
      requires Valid()
      modifies this
      ensures Valid()
      ensures docs == Stored(old(docs), batch)
    {
      for n := 0 to |batch|
        invariant Valid()
        invariant docs == Stored(old(docs), batch[..n])
      {
        docs := docs[batch[n].id := batch[n]];
        assert batch[..n + 1][..n] == batch[..n];
      }
      assert batch[..|batch|] == batch;
    }

    method Delete(ids: seq<string>)
      requires Valid()
      modifies this
      ensures Valid()
      ensures docs == old(docs) - Elements(ids)
    {
      for n := 0 to |ids|
        invariant Valid()
        invariant docs == old(docs) - Elements(ids[..n])
      {
        docs := docs - {ids[n]};
        assert Elements(ids[..n + 1]) == Elements(ids[..n]) + {ids[n]} by { ElementsGrow(ids, n); }
      }
      assert ids[..|ids|] == ids;
    }

    /** The stored documents that pass the filter, scored, in the order in which the map is walked. */
    method Candidates(sqrt: real -> real, query: Vector, filter: Metadata) returns (candidates: seq<SearchResult>)
      requires Valid() && SquareRoot(sqrt)
      ensures Genuine(sqrt, docs, Query(query, filter), candidates)
      ensures Ids(candidates) == Matches(docs, Query(query, filter))
    {
      candidates := [];
      var pending := docs.Keys;
      ghost var q := Query(query, filter);
      while pending != {}
        invariant pending <= docs.Keys
        invariant Genuine(sqrt, docs, q, candidates)
        invariant Ids(candidates) == Matches(docs, q) - pending
        decreases |pending|
      {
        var id :| id in pending;
        pending := pending - {id};
        var matches := MetadataMatches(docs[id].metadata, filter);
        if matches {
          var score := Cosine(sqrt, query, docs[id].vector);
          AddCandidate(sqrt, docs, q, candidates, id);
          candidates := candidates + [SearchResult(docs[id], score)];
        }
      }
    }

    /** A negative limit cuts below the start of the candidate list, which fails: no answer. */
    method Search(sqrt: real -> real, query: Vector, topK: int, filter: Metadata)
      returns (results: Option<seq<SearchResult>>)
      requires Valid() && SquareRoot(sqrt)
      ensures topK < 0 <==> results.None?
      ensures results.Some? ==> TopMatches(sqrt, docs, Query(query, filter), topK, results.value)
    {
      ghost var q := Query(query, filter);
      var candidates := Candidates(sqrt, query, filter);
      var sorted := SortByScore(candidates);
      SortedKeepsCandidates(sqrt, docs, q, candidates, sorted);
      if topK < 0 { return None; }
      if topK < |sorted| {
        CutKeepsTheBest(sqrt, docs, q, sorted, topK);
        return Some(sorted[..topK]);
      }
      AllAreTheBest(sqrt, docs, q, sorted, topK);
      return Some(sorted);
    }
  }

  lemma AllAreTheBest(sqrt: real -> real, docs: Documents, q: Query, sorted: seq<SearchResult>, k: nat)
    requires SquareRoot(sqrt)
    requires Genuine(sqrt, docs, q, sorted) && Descending(sorted) && Ids(sorted) == Matches(docs, q)
    requires k >= |sorted|
    ensures TopMatches(sqrt, docs, q, k, sorted)
  {
    IdsCount(sorted);
  }
}
