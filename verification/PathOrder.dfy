/** The order gateway routes are registered in: `comparePaths` segment by segment, `orderPaths` on the
    list, and what that means for the first registered pattern that matches a request. */
module PathOrder {
  import opened Ordering
  import opened Words

  datatype PathDefinition = PathDefinition(path: string, name: string)

  const STATIC := 0
  const PARAM := 1
  const WILDCARD := 2

  /** What a router reads in a segment: `:name` takes any one segment, a star takes any text, and anything else
      only itself. */
  predicate Named(segment: string) { segment != "" && segment[0] == ':' }

  predicate Starred(segment: string) { !Named(segment) && exists i | 0 <= i < |segment| :: segment[i] == '*' }

  predicate Literal(segment: string) { !Named(segment) && !Starred(segment) }

  function SegmentKind(segment: string): (kind: int)
    ensures kind == STATIC <==> Literal(segment)
    ensures kind == PARAM <==> Named(segment)
    ensures kind == WILDCARD <==> Starred(segment)
  {
    if segment != "" && segment[0] == ':' then PARAM else if '*' in segment then WILDCARD else STATIC
  }

  predicate NonEmpty(segment: string) { segment != "" }

  function SplitSegments(path: string): seq<string> { Select(NonEmpty, Split(path, '/')) }

  // ---- The comparison -----------------------------------------------------------------------------

  function CompareSegments(a: seq<string>, b: seq<string>): int {
    if a == [] && b == [] then 0
    else if a == [] then -1
    else if b == [] then 1
    else
      var ka, kb := SegmentKind(a[0]), SegmentKind(b[0]);
      if ka != kb then ka - kb
      else if ka == STATIC && a[0] != b[0] then if LexLeq(a[0], b[0]) then -1 else 1
      else CompareSegments(a[1..], b[1..])
  }

  function ComparePathsOf(a: string, b: string): int { CompareSegments(SplitSegments(a), SplitSegments(b)) }

  method ComparePaths(a: string, b: string) returns (order: int)
    ensures order == ComparePathsOf(a, b)
  {
    var sa := SplitSegments(a);
    var sb := SplitSegments(b);
    var len := if |sa| < |sb| then |sb| else |sa|;
    assert sa[0..] == sa && sb[0..] == sb;
    for i := 0 to len
      invariant i <= |sa| && i <= |sb|
      invariant CompareSegments(sa, sb) == CompareSegments(sa[i..], sb[i..])
    {
      if i >= |sa| { return -1; }
      if i >= |sb| { return 1; }
      var ka := SegmentKind(sa[i]);
      var kb := SegmentKind(sb[i]);
      if ka != kb { return ka - kb; }
      if ka == STATIC && sa[i] != sb[i] {
        return if LexLeq(sa[i], sb[i]) then -1 else 1;
      }
      assert sa[i..][1..] == sa[i + 1..] && sb[i..][1..] == sb[i + 1..];
    }
    order := 0;
  }

  /** Where two patterns agree so far, a literal segment sorts before any other, and a named one before a
      starred one. */
  lemma MoreSpecificFirst(a: string, b: string, x: seq<string>, y: seq<string>)
    ensures Literal(a) && !Literal(b) ==> CompareSegments([a] + x, [b] + y) < 0 < CompareSegments([b] + y, [a] + x)
    ensures Named(a) && Starred(b) ==> CompareSegments([a] + x, [b] + y) < 0 < CompareSegments([b] + y, [a] + x)
  {
  }

  /** Two literal segments go by the first character they differ in, a prefix first. */
  lemma LiteralsByText(a: string, b: string, x: seq<string>, y: seq<string>)
    requires Literal(a) && Literal(b) && a != b
    ensures CompareSegments([a] + x, [b] + y) < 0 <==> exists n :: LowerAt(a, b, n)
  {
    LexLeqExact(a, b);
  }

  // ---- What a path is cut into --------------------------------------------------------------------

  /** Slashes separate and nothing else counts: of a path in two halves, the segments of both; of a half
      without slash, itself, or nothing if it is empty. */
  lemma SegmentsOfHalves(a: string, b: string)
    ensures SplitSegments(a + "/" + b) == SplitSegments(a) + SplitSegments(b)
  {
    SplitHalves(a, '/', b);
    SelectConcat(NonEmpty, Split(a, '/'), Split(b, '/'));
  }

  lemma SegmentAlone(a: string)
    requires Free(a, '/')
    ensures SplitSegments(a) == if a == "" then [] else [a]
  {
    FirstAtCut(a, '/', "");
    assert Split(a, '/') == [a] && [a][1..] == [] && Select(NonEmpty, [a][1..]) == [];
    assert Select(NonEmpty, [a]) == (if NonEmpty(a) then [a] else []) + Select(NonEmpty, [a][1..]);
  }

  // ---- What is compared ---------------------------------------------------------------------------

  /** What a segment counts for: its kind, and its text only if it is static. */
  datatype SegmentKey = SegmentKey(kind: int, text: string)

  function KeyOf(segment: string): SegmentKey {
    var kind := SegmentKind(segment);
    SegmentKey(kind, if kind == STATIC then segment else "")
  }

  function KeysOf(segments: seq<string>): (keys: seq<SegmentKey>)
    ensures |keys| == |segments| && forall i :: 0 <= i < |keys| ==> keys[i] == KeyOf(segments[i])
  {
    if segments == [] then [] else [KeyOf(segments[0])] + KeysOf(segments[1..])
  }

  predicate SegmentLeq(x: SegmentKey, y: SegmentKey) {
    x.kind < y.kind || (x.kind == y.kind && LexLeq(x.text, y.text))
  }

  /** Dictionary order on keys, a prefix first. */
  predicate KeysLeq(x: seq<SegmentKey>, y: seq<SegmentKey>) {
    x == [] || (y != [] && SegmentLeq(x[0], y[0]) && (x[0] == y[0] ==> KeysLeq(x[1..], y[1..])))
  }

  lemma SegmentOrder()
    ensures forall x, y :: SegmentLeq(x, y) || SegmentLeq(y, x)
    ensures forall x, y, z :: SegmentLeq(x, y) && SegmentLeq(y, z) ==> SegmentLeq(x, z)
    ensures forall x, y :: SegmentLeq(x, y) && SegmentLeq(y, x) ==> x == y
  {
    LexOrder();
  }

  lemma {:induction false} KeysTotal(x: seq<SegmentKey>, y: seq<SegmentKey>)
    ensures KeysLeq(x, y) || KeysLeq(y, x)
  {
    SegmentOrder();
    if x != [] && y != [] { KeysTotal(x[1..], y[1..]); }
  }

  lemma {:induction false} KeysTransitive(x: seq<SegmentKey>, y: seq<SegmentKey>, z: seq<SegmentKey>)
    requires KeysLeq(x, y) && KeysLeq(y, z)
    ensures KeysLeq(x, z)
  {
    SegmentOrder();
    if x != [] && x[0] == y[0] == z[0] { KeysTransitive(x[1..], y[1..], z[1..]); }
  }

  lemma {:induction false} KeysAntisymmetric(x: seq<SegmentKey>, y: seq<SegmentKey>)
    requires KeysLeq(x, y) && KeysLeq(y, x)
    ensures x == y
  {
    SegmentOrder();
    if x != [] {
      KeysAntisymmetric(x[1..], y[1..]);
      assert x == [x[0]] + x[1..] && y == [y[0]] + y[1..];
    }
  }

  /** The sign of the comparison is the dictionary order on the segments' keys: a tie exactly for equal
      keys. */
  lemma {:induction false} CompareIsKeyOrder(a: seq<string>, b: seq<string>)
    ensures CompareSegments(a, b) <= 0 <==> KeysLeq(KeysOf(a), KeysOf(b))
    ensures CompareSegments(a, b) == 0 <==> KeysOf(a) == KeysOf(b)
  {
    if a == [] || b == [] {
      assert |KeysOf(a)| == |a| && |KeysOf(b)| == |b|;
    } else {
      LexOrder();
      CompareIsKeyOrder(a[1..], b[1..]);
      var x, y := KeysOf(a), KeysOf(b);
      assert x[1..] == KeysOf(a[1..]) && y[1..] == KeysOf(b[1..]);
      assert x == [x[0]] + x[1..] && y == [y[0]] + y[1..];
    }
  }

  predicate PathLeq(p: PathDefinition, q: PathDefinition) { ComparePathsOf(p.path, q.path) <= 0 }

  /** The comparator is a total preorder, and two paths tie exactly when their segments have equal keys. */
  lemma ComparePathsOrders()
    ensures TotalPreorder(PathLeq)
    ensures forall p, q :: Tied(PathLeq, p, q) <==> KeysOf(SplitSegments(p.path)) == KeysOf(SplitSegments(q.path))
  {
    forall p, q
      ensures PathLeq(p, q) <==> KeysLeq(KeysOf(SplitSegments(p.path)), KeysOf(SplitSegments(q.path)))
    {
      CompareIsKeyOrder(SplitSegments(p.path), SplitSegments(q.path));
    }
    forall p, q ensures PathLeq(p, q) || PathLeq(q, p) {
      KeysTotal(KeysOf(SplitSegments(p.path)), KeysOf(SplitSegments(q.path)));
    }
    forall p, q, r | PathLeq(p, q) && PathLeq(q, r) ensures PathLeq(p, r) {
      KeysTransitive(KeysOf(SplitSegments(p.path)), KeysOf(SplitSegments(q.path)), KeysOf(SplitSegments(r.path)));
    }
    forall p, q ensures Tied(PathLeq, p, q) <==> KeysOf(SplitSegments(p.path)) == KeysOf(SplitSegments(q.path)) {
      var x, y := KeysOf(SplitSegments(p.path)), KeysOf(SplitSegments(q.path));
      if Tied(PathLeq, p, q) { KeysAntisymmetric(x, y); }
      if x == y { KeysTotal(x, y); }
    }
  }

  // ---- The sorted list ----------------------------------------------------------------------------

  function OrderPaths(paths: seq<PathDefinition>): seq<PathDefinition> { StableSort(PathLeq, paths) }

  /** A sorted permutation that keeps tied paths in their given order, and the only one there is. */
  lemma OrderPathsSorts(paths: seq<PathDefinition>, other: seq<PathDefinition>)
    ensures SortedBy(PathLeq, OrderPaths(paths)) && multiset(OrderPaths(paths)) == multiset(paths)
    ensures forall rep :: Select(TiedWith(PathLeq, rep), OrderPaths(paths)) == Select(TiedWith(PathLeq, rep), paths)
    ensures SortedBy(PathLeq, other)
      && (forall rep :: Select(TiedWith(PathLeq, rep), other) == Select(TiedWith(PathLeq, rep), paths))
      ==> other == OrderPaths(paths)
  {
    ComparePathsOrders();
    SortSorted(PathLeq, paths);
    SortMultiset(PathLeq, paths);
    forall rep ensures Select(TiedWith(PathLeq, rep), OrderPaths(paths)) == Select(TiedWith(PathLeq, rep), paths) {
      SortStable(PathLeq, paths, rep);
    }
    if SortedBy(PathLeq, other)
      && forall rep :: Select(TiedWith(PathLeq, rep), other) == Select(TiedWith(PathLeq, rep), paths)
    {
      StableUnique(PathLeq, other, OrderPaths(paths));
    }
  }

  // ---- First match --------------------------------------------------------------------------------

  /** Position of the first wildcard segment, or the length. */
  function FirstWildcard(segments: seq<string>): (n: nat)
    ensures n <= |segments| && forall i :: 0 <= i < n ==> !Starred(segments[i])
  {
    if segments == [] || Starred(segments[0]) then 0 else 1 + FirstWildcard(segments[1..])
  }

  /** What any router asks of a match: up to the first wildcard every pattern segment takes one request
      segment, a static one its equal; without wildcard nothing is left over. */
  ghost predicate CouldMatch(pattern: seq<string>, request: seq<string>) {
    var n := FirstWildcard(pattern);
    && n <= |request|
    && (forall i :: 0 <= i < n && Literal(pattern[i]) ==> pattern[i] == request[i])
    && (n == |pattern| ==> |request| == n)
  }

  ghost predicate AllStatic(pattern: seq<string>) {
    forall i :: 0 <= i < |pattern| ==> Literal(pattern[i])
  }

  lemma {:induction false} StaticHasNoWildcard(pattern: seq<string>)
    requires AllStatic(pattern)
    ensures FirstWildcard(pattern) == |pattern|
  {
    if pattern != [] {
      forall i | 0 <= i < |pattern[1..]| ensures Literal(pattern[1..][i]) { assert pattern[1..][i] == pattern[i + 1]; }
      StaticHasNoWildcard(pattern[1..]);
    }
  }

  lemma {:induction false} CommonPrefix(a: seq<string>, b: seq<string>, n: nat)
    requires n <= |a| && n <= |b| && forall i :: 0 <= i < n ==> KeyOf(a[i]) == KeyOf(b[i])
    ensures CompareSegments(a, b) == CompareSegments(a[n..], b[n..])
  {
    if n == 0 {
      assert a[0..] == a && b[0..] == b;
    } else {
      forall i | 0 <= i < n - 1 ensures KeyOf(a[1..][i]) == KeyOf(b[1..][i]) { assert KeyOf(a[i + 1]) == KeyOf(b[i + 1]); }
      CommonPrefix(a[1..], b[1..], n - 1);
      assert a[1..][n - 1..] == a[n..] && b[1..][n - 1..] == b[n..];
      assert KeyOf(a[0]) == KeyOf(b[0]);
    }
  }

  /** Position of the first segment that is not static, or the length. */
  function FirstOpen(segments: seq<string>): (n: nat)
    ensures n <= |segments| && n <= FirstWildcard(segments)
    ensures forall i :: 0 <= i < n ==> Literal(segments[i])
    ensures n < |segments| ==> !Literal(segments[n])
  {
    if segments == [] || !Literal(segments[0]) then 0 else 1 + FirstOpen(segments[1..])
  }

  /** Of two patterns that match one request, an all-static one sorts strictly before one that is not. */
  lemma StaticFirst(a: seq<string>, b: seq<string>, request: seq<string>)
    requires CouldMatch(a, request) && CouldMatch(b, request) && AllStatic(a) && !AllStatic(b)
    ensures CompareSegments(a, b) < 0 < CompareSegments(b, a)
  {
    StaticHasNoWildcard(a);
    var n := FirstOpen(b);
    assert n < |b|;
    CommonPrefix(a, b, n);
    CommonPrefix(b, a, n);
  }

  /** So in the registered list it is met first. */
  lemma StaticRegisteredFirst(paths: seq<PathDefinition>, i: nat, j: nat, request: seq<string>)
    requires i < |OrderPaths(paths)| && j < |OrderPaths(paths)|
    requires var a, b := SplitSegments(OrderPaths(paths)[i].path), SplitSegments(OrderPaths(paths)[j].path);
      CouldMatch(a, request) && CouldMatch(b, request) && AllStatic(a) && !AllStatic(b)
    ensures i < j
  {
    OrderPathsSorts(paths, []);
    var all := OrderPaths(paths);
    StaticFirst(SplitSegments(all[i].path), SplitSegments(all[j].path), request);
    assert !PathLeq(all[j], all[i]);
  }

  /** Two patterns of one length that match one request: the one met first is the more specific at the
      first position where their kinds differ, if no wildcard comes before it. */
  lemma FirstDifferenceDecides(a: seq<string>, b: seq<string>, request: seq<string>, n: nat)
    requires CouldMatch(a, request) && CouldMatch(b, request)
    requires |a| == |b| && n < |a| && n <= FirstWildcard(a)
    requires forall i :: 0 <= i < n ==> SegmentKind(a[i]) == SegmentKind(b[i])
    requires SegmentKind(a[n]) != SegmentKind(b[n])
    ensures CompareSegments(a, b) < 0 <==> SegmentKind(a[n]) < SegmentKind(b[n])
    ensures CompareSegments(a, b) != 0
  {
    WildcardAfter(b, n);
    forall i | 0 <= i < n ensures KeyOf(a[i]) == KeyOf(b[i]) {
      assert SegmentKind(a[i]) == SegmentKind(b[i]);
    }
    CommonPrefix(a, b, n);
  }

  lemma {:induction false} WildcardAfter(segments: seq<string>, n: nat)
    requires n <= |segments| && forall i :: 0 <= i < n ==> !Starred(segments[i])
    ensures n <= FirstWildcard(segments)
  {
    if n > 0 {
      forall i | 0 <= i < n - 1 ensures !Starred(segments[1..][i]) { assert segments[1..][i] == segments[i + 1]; }
      WildcardAfter(segments[1..], n - 1);
    }
  }
}
