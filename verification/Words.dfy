/** JavaScript's `split` and `join` on a one-character separator. */
module Words {

  predicate Free(s: string, c: char) { c !in s }

  function Join(parts: seq<string>, sep: char): string {
    if parts == [] then ""
    else if |parts| == 1 then parts[0]
    else parts[0] + [sep] + Join(parts[1..], sep)
  }

  /** Position of the first separator, or the length. */
  function FirstAt(s: string, c: char): (i: nat)
    ensures i <= |s| && Free(s[..i], c) && (i < |s| ==> s[i] == c)
  {
    if s == "" || s[0] == c then 0 else 1 + FirstAt(s[1..], c)
  }

  function Split(s: string, sep: char): (parts: seq<string>)
    ensures parts != []
    decreases |s|
  {
    var i := FirstAt(s, sep);
    if i == |s| then [s] else [s[..i]] + Split(s[i + 1..], sep)
  }

  lemma {:induction false} FirstAtCut(a: string, c: char, rest: string)
    requires Free(a, c)
    ensures FirstAt(a + [c] + rest, c) == |a| && FirstAt(a, c) == |a|
  {
    if a != "" {
      assert (a + [c] + rest)[1..] == a[1..] + [c] + rest;
      FirstAtCut(a[1..], c, rest);
    }
  }

  /** What precedes the first separator, and what follows it, are determined by the text. */
  lemma CutUnique(a: string, b: string, c: char, s: string, t: string)
    requires Free(a, c) && Free(b, c) && a + [c] + s == b + [c] + t
    ensures a == b && s == t
  {
    FirstAtCut(a, c, s);
    FirstAtCut(b, c, t);
    var x := a + [c] + s;
    assert a == x[..|a|] && s == x[|a| + 1..];
    assert b == (b + [c] + t)[..|b|] && t == (b + [c] + t)[|b| + 1..];
  }

  lemma SplitCut(head: string, sep: char, rest: string)
    requires Free(head, sep)
    ensures Split(head + [sep] + rest, sep) == [head] + Split(rest, sep) && Split(head, sep) == [head]
  {
    FirstAtCut(head, sep, rest);
    var s := head + [sep] + rest;
    assert s[..|head|] == head && s[|head| + 1..] == rest;
  }

  lemma Regroup(x: seq<string>, y: seq<string>, z: seq<string>)
    ensures x + y + z == x + (y + z)
  {
  }

  lemma SplitTwice(head: string, sep: char, tail: string, b: string)
    requires Free(head, sep)
    ensures Split(head + [sep] + tail + [sep] + b, sep) == [head] + Split(tail + [sep] + b, sep)
  {
    SplitCut(head, sep, tail + [sep] + b);
    assert head + [sep] + tail + [sep] + b == head + [sep] + (tail + [sep] + b);
  }

  /** A text that holds the separator is cut at its first one. */
  lemma FirstCut(a: string, sep: char) returns (head: string, tail: string)
    requires !Free(a, sep)
    ensures Free(head, sep) && a == head + [sep] + tail && |tail| < |a|
  {
    var i := FirstAt(a, sep);
    assert a[..|a|] == a;
    head, tail := a[..i], a[i + 1..];
  }

  /** A text in two halves splits into the parts of both. */
  lemma {:induction false} SplitHalves(a: string, sep: char, b: string)
    ensures Split(a + [sep] + b, sep) == Split(a, sep) + Split(b, sep)
    decreases |a|
  {
    if Free(a, sep) {
      SplitCut(a, sep, b);
    } else {
      var head, tail := FirstCut(a, sep);
      SplitHalves(tail, sep, b);
      HalvesStep(head, sep, tail, b);
    }
  }

  lemma HalvesStep(head: string, sep: char, tail: string, b: string)
    requires Free(head, sep) && Split(tail + [sep] + b, sep) == Split(tail, sep) + Split(b, sep)
    ensures Split(head + [sep] + tail + [sep] + b, sep) == Split(head + [sep] + tail, sep) + Split(b, sep)
  {
    SplitCut(head, sep, tail);
    SplitTwice(head, sep, tail, b);
    Regroup([head], Split(tail, sep), Split(b, sep));
  }

  /** Splitting undoes joining when no part holds the separator. */
  lemma {:induction false} SplitJoin(parts: seq<string>, sep: char)
    requires parts != [] && forall i :: 0 <= i < |parts| ==> Free(parts[i], sep)
    ensures Split(Join(parts, sep), sep) == parts
  {
    if |parts| == 1 {
      FirstAtCut(parts[0], sep, "");
    } else {
      var text := Join(parts, sep);
      FirstAtCut(parts[0], sep, Join(parts[1..], sep));
      assert text[..|parts[0]|] == parts[0] && text[|parts[0]| + 1..] == Join(parts[1..], sep);
      SplitJoin(parts[1..], sep);
    }
  }

  /** Joining undoes splitting. */
  lemma {:induction false} JoinSplit(s: string, sep: char)
    ensures Join(Split(s, sep), sep) == s
    decreases |s|
  {
    var i := FirstAt(s, sep);
    if i == |s| {
      assert s[..i] == s;
    } else {
      JoinSplit(s[i + 1..], sep);
      var rest := Split(s[i + 1..], sep);
      assert ([s[..i]] + rest)[1..] == rest;
      assert s == s[..i] + [sep] + s[i + 1..];
    }
  }
}
