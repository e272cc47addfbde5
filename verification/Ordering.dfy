/** The order JavaScript's default string sort uses, and the stable sort behind `Array.prototype.sort`.
    Every sorted list of the model (object keys, action names, route paths, durations, buckets) goes
    through `StableSort`. */
module Ordering {

  // ---- Comparators --------------------------------------------------------------------------

  ghost predicate TotalPreorder<T(!new)>(leq: (T, T) -> bool) {
    && (forall x, y :: leq(x, y) || leq(y, x))
    && (forall x, y, z :: leq(x, y) && leq(y, z) ==> leq(x, z))
  }

  ghost predicate Antisymmetric<T(!new)>(leq: (T, T) -> bool) {
    forall x, y :: leq(x, y) && leq(y, x) ==> x == y
  }

  /** Neither of the two sorts strictly before the other. */
  predicate Tied<T>(leq: (T, T) -> bool, x: T, y: T) {
    leq(x, y) && leq(y, x)
  }

  // ---- The sort -----------------------------------------------------------------------------

  ghost predicate SortedBy<T>(leq: (T, T) -> bool, s: seq<T>) {
    forall i, j :: 0 <= i < j < |s| ==> leq(s[i], s[j])
  }

  function Insert<T>(leq: (T, T) -> bool, x: T, s: seq<T>): seq<T> {
    if s == [] then [x]
    else if leq(x, s[0]) then [x] + s
    else [s[0]] + Insert(leq, x, s[1..])
  }

  function StableSort<T>(leq: (T, T) -> bool, s: seq<T>): seq<T> {
    if s == [] then [] else Insert(leq, s[0], StableSort(leq, s[1..]))
  }

  /** The elements of `s` satisfying `keep`, in order. */
  function Select<T>(keep: T -> bool, s: seq<T>): seq<T> {
    if s == [] then []
    else (if keep(s[0]) then [s[0]] else []) + Select(keep, s[1..])
  }

  lemma {:induction false} SelectConcat<T>(keep: T -> bool, s: seq<T>, t: seq<T>)
    ensures Select(keep, s + t) == Select(keep, s) + Select(keep, t)
  {
    if s == [] {
      assert s + t == t;
    } else {
      SelectConcat(keep, s[1..], t);
      var head, a, b := if keep(s[0]) then [s[0]] else [], Select(keep, s[1..]), Select(keep, t);
      assert (s + t)[0] == s[0] && (s + t)[1..] == s[1..] + t;
      assert head + (a + b) == (head + a) + b;
    }
  }

  lemma {:induction false} SelectMember<T>(keep: T -> bool, s: seq<T>, x: T)
    ensures x in Select(keep, s) <==> x in s && keep(x)
  {
    if s != [] {
      SelectMember(keep, s[1..], x);
      assert s == [s[0]] + s[1..];
    }
  }

  lemma {:induction false} InsertMultiset<T>(leq: (T, T) -> bool, x: T, s: seq<T>)
    ensures multiset(Insert(leq, x, s)) == multiset(s) + multiset{x}
  {
    if s == [] {
    } else if leq(x, s[0]) {
    } else {
      InsertMultiset(leq, x, s[1..]);
      assert s == [s[0]] + s[1..];
    }
  }

  lemma {:induction false} SortMultiset<T>(leq: (T, T) -> bool, s: seq<T>)
    ensures multiset(StableSort(leq, s)) == multiset(s)
    ensures |StableSort(leq, s)| == |s|
  {
    if s == [] {
    } else {
      SortMultiset(leq, s[1..]);
      InsertMultiset(leq, s[0], StableSort(leq, s[1..]));
      assert s == [s[0]] + s[1..];
    }
    assert |multiset(StableSort(leq, s))| == |multiset(s)|;
  }

  lemma SortMembers<T>(leq: (T, T) -> bool, s: seq<T>)
    ensures forall x :: x in StableSort(leq, s) <==> x in s
  {
    SortMultiset(leq, s);
    forall x ensures x in StableSort(leq, s) <==> x in s {
      assert x in multiset(StableSort(leq, s)) <==> x in multiset(s);
    }
  }

  lemma {:induction false} InsertSorted<T(!new)>(leq: (T, T) -> bool, x: T, s: seq<T>)
    requires TotalPreorder(leq) && SortedBy(leq, s)
    ensures SortedBy(leq, Insert(leq, x, s))
  {
    if s == [] {
    } else if leq(x, s[0]) {
    } else {
      InsertSorted(leq, x, s[1..]);
      InsertMultiset(leq, x, s[1..]);
      var rest := Insert(leq, x, s[1..]);
      forall i | 0 <= i < |rest| ensures leq(s[0], rest[i]) {
        assert rest[i] in multiset(rest);
        assert rest[i] == x || rest[i] in s[1..];
      }
    }
  }

  lemma {:induction false} SortSorted<T(!new)>(leq: (T, T) -> bool, s: seq<T>)
    requires TotalPreorder(leq)
    ensures SortedBy(leq, StableSort(leq, s))
  {
    if s != [] {
      SortSorted(leq, s[1..]);
      InsertSorted(leq, s[0], StableSort(leq, s[1..]));
    }
  }

  function TiedWith<T>(leq: (T, T) -> bool, rep: T): T -> bool { y => Tied(leq, rep, y) }

  /** Inserting keeps the order of every class of tied elements, the new one first in its class. */
  lemma {:induction false} InsertStable<T(!new)>(leq: (T, T) -> bool, x: T, s: seq<T>, rep: T)
    requires TotalPreorder(leq)
    ensures Select(TiedWith(leq, rep), Insert(leq, x, s)) == Select(TiedWith(leq, rep), [x] + s)
  {
    var keep := TiedWith(leq, rep);
    if s != [] && !leq(x, s[0]) {
      InsertStable(leq, x, s[1..], rep);
      // x sorts strictly after s[0], so they are never in one class.
      assert !(keep(x) && keep(s[0]));
      SelectSwap(keep, s[0], x, s[1..]);
      SelectConcat(keep, [s[0]], Insert(leq, x, s[1..]));
      SelectConcat(keep, [s[0]], [x] + s[1..]);
      assert [x] + s == [x] + [s[0]] + s[1..];
      assert [s[0]] + [x] + s[1..] == [s[0]] + ([x] + s[1..]);
    }
  }

  lemma SelectSwap<T>(keep: T -> bool, x: T, y: T, s: seq<T>)
    requires !(keep(x) && keep(y))
    ensures Select(keep, [x] + [y] + s) == Select(keep, [y] + [x] + s)
  {
    SelectConcat(keep, [x] + [y], s);
    SelectConcat(keep, [y] + [x], s);
    SelectConcat(keep, [x], [y]);
    SelectConcat(keep, [y], [x]);
  }

  /** Tied elements keep the order they had. */
  lemma {:induction false} SortStable<T(!new)>(leq: (T, T) -> bool, s: seq<T>, rep: T)
    requires TotalPreorder(leq)
    ensures Select(TiedWith(leq, rep), StableSort(leq, s)) == Select(TiedWith(leq, rep), s)
  {
    if s != [] {
      var sorted := StableSort(leq, s[1..]);
      SortStable(leq, s[1..], rep);
      InsertStable(leq, s[0], sorted, rep);
      SelectConcat(TiedWith(leq, rep), [s[0]], sorted);
      SelectConcat(TiedWith(leq, rep), [s[0]], s[1..]);
      assert s == [s[0]] + s[1..];
    }
  }

  /** Sorted arrangements with the same order inside every tie are the same. */
  lemma {:induction false} StableUnique<T(!new)>(leq: (T, T) -> bool, s: seq<T>, t: seq<T>)
    requires TotalPreorder(leq) && SortedBy(leq, s) && SortedBy(leq, t)
    requires forall rep :: Select(TiedWith(leq, rep), s) == Select(TiedWith(leq, rep), t)
    ensures s == t
  {
    if s == [] && t == [] {
    } else if s == [] {
      SelectMember(TiedWith(leq, t[0]), t, t[0]);
    } else {
      SelectMember(TiedWith(leq, s[0]), s, s[0]);
      SelectMember(TiedWith(leq, s[0]), t, s[0]);
      HeadsTie(leq, s, t);
      assert s[0] == Select(TiedWith(leq, s[0]), s)[0] == Select(TiedWith(leq, s[0]), t)[0] == t[0];
      forall rep ensures Select(TiedWith(leq, rep), s[1..]) == Select(TiedWith(leq, rep), t[1..]) {
        var keep := TiedWith(leq, rep);
        var head := if keep(s[0]) then [s[0]] else [];
        assert Select(keep, s) == head + Select(keep, s[1..]) && Select(keep, t) == head + Select(keep, t[1..]);
        assert Select(keep, s[1..]) == Select(keep, s)[|head|..] && Select(keep, t[1..]) == Select(keep, t)[|head|..];
      }
      StableUnique(leq, s[1..], t[1..]);
      assert s == [s[0]] + s[1..] && t == [t[0]] + t[1..];
    }
  }

  lemma HeadsTie<T(!new)>(leq: (T, T) -> bool, s: seq<T>, t: seq<T>)
    requires TotalPreorder(leq) && SortedBy(leq, s) && SortedBy(leq, t) && s != [] && s[0] in t
    requires forall rep :: Select(TiedWith(leq, rep), s) == Select(TiedWith(leq, rep), t)
    ensures t != [] && Tied(leq, s[0], t[0])
  {
    var i :| 0 <= i < |t| && t[i] == s[0];
    SelectMember(TiedWith(leq, t[0]), t, t[0]);
    SelectMember(TiedWith(leq, t[0]), s, t[0]);
    var j :| 0 <= j < |s| && s[j] == t[0];
  }

  /** With an antisymmetric order there is only one sorted arrangement of a multiset. */
  lemma {:induction false} SortedUnique<T(!new)>(leq: (T, T) -> bool, s: seq<T>, t: seq<T>)
    requires TotalPreorder(leq) && Antisymmetric(leq)
    requires SortedBy(leq, s) && SortedBy(leq, t) && multiset(s) == multiset(t)
    ensures s == t
  {
    assert |multiset(s)| == |s| && |multiset(t)| == |t|;
    if s == [] {
    } else {
      assert s[0] in multiset(t) && t[0] in multiset(s);
      assert s[0] == t[0];
      assert s == [s[0]] + s[1..] && t == [t[0]] + t[1..];
      assert multiset(s[1..]) == multiset(s) - multiset{s[0]};
      assert multiset(t[1..]) == multiset(t) - multiset{t[0]};
      SortedUnique(leq, s[1..], t[1..]);
    }
  }

  /** Sorting depends only on the multiset of elements. */
  lemma SortCanonical<T(!new)>(leq: (T, T) -> bool, s: seq<T>, t: seq<T>)
    requires TotalPreorder(leq) && Antisymmetric(leq)
    ensures StableSort(leq, s) == StableSort(leq, t) <==> multiset(s) == multiset(t)
  {
    SortMultiset(leq, s);
    SortMultiset(leq, t);
    SortSorted(leq, s);
    SortSorted(leq, t);
    if multiset(s) == multiset(t) {
      SortedUnique(leq, StableSort(leq, s), StableSort(leq, t));
    }
  }

  // ---- Strings ------------------------------------------------------------------------------

  /** Default string order: by character code, a proper prefix first. */
  predicate LexLeq(a: string, b: string) {
    a == "" || (b != "" && (a[0] < b[0] || (a[0] == b[0] && LexLeq(a[1..], b[1..]))))
  }

  /** The two agree on their first `n` characters, and then the first ends or has the lower character. */
  predicate LowerAt(a: string, b: string, n: nat) {
    n <= |a| && n <= |b| && a[..n] == b[..n] && (n == |a| || (n < |b| && a[n] < b[n]))
  }

  lemma {:induction false} LexLeqExact(a: string, b: string)
    ensures LexLeq(a, b) <==> exists n :: LowerAt(a, b, n)
  {
    if a == "" {
      assert LowerAt(a, b, 0);
    } else if b != "" && a[0] == b[0] {
      LexLeqExact(a[1..], b[1..]);
      if n: nat :| LowerAt(a[1..], b[1..], n) {
        assert a[..n + 1] == [a[0]] + a[1..][..n] && b[..n + 1] == [b[0]] + b[1..][..n];
        assert LowerAt(a, b, n + 1);
      }
      if n: nat :| LowerAt(a, b, n) {
        assert n > 0 && a[..n][1..] == a[1..][..n - 1] && b[..n][1..] == b[1..][..n - 1];
        assert LowerAt(a[1..], b[1..], n - 1);
      }
    } else {
      if b != "" && a[0] < b[0] { assert LowerAt(a, b, 0); }
      forall n: nat | LowerAt(a, b, n) ensures LexLeq(a, b) { assert n > 0 ==> a[..n][0] == b[..n][0]; }
    }
  }

  lemma {:induction false} LexTotal(a: string, b: string)
    ensures LexLeq(a, b) || LexLeq(b, a)
  {
    if a != "" && b != "" && a[0] == b[0] {
      LexTotal(a[1..], b[1..]);
    }
  }

  lemma {:induction false} LexTransitive(a: string, b: string, c: string)
    requires LexLeq(a, b) && LexLeq(b, c)
    ensures LexLeq(a, c)
  {
    if a != "" && a[0] == b[0] == c[0] {
      LexTransitive(a[1..], b[1..], c[1..]);
    }
  }

  lemma {:induction false} LexAntisymmetric(a: string, b: string)
    requires LexLeq(a, b) && LexLeq(b, a)
    ensures a == b
  {
    if a != "" {
      LexAntisymmetric(a[1..], b[1..]);
      assert a == [a[0]] + a[1..] && b == [b[0]] + b[1..];
    }
  }

  lemma LexOrder()
    ensures TotalPreorder(LexLeq) && Antisymmetric(LexLeq)
  {
    forall x, y ensures LexLeq(x, y) || LexLeq(y, x) { LexTotal(x, y); }
    forall x, y, z | LexLeq(x, y) && LexLeq(y, z) ensures LexLeq(x, z) { LexTransitive(x, y, z); }
    forall x, y | LexLeq(x, y) && LexLeq(y, x) ensures x == y { LexAntisymmetric(x, y); }
  }
}
