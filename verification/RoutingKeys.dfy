/** `matchesRoutingKey`, the check a consumer makes on a delivery, against the topic rules of section
    3.1.3.3 of AMQP 0-9-1: words are separated by dots, `*` stands for one word, `#` for zero or more. */
module RoutingKeys {
  import opened Words

  datatype Pattern = Undefined | One(p: string) | Many(ps: seq<string>)

  // ---- The loop -----------------------------------------------------------------------------------

  predicate WordFits(key: seq<string>, pattern: seq<string>, i: nat)
    requires i < |pattern|
  {
    pattern[i] == "*" || (i < |key| && pattern[i] == key[i])
  }

  predicate PrefixFits(key: seq<string>, pattern: seq<string>) {
    forall i | 0 <= i < |pattern| :: WordFits(key, pattern, i)
  }

  /** Position of the first `#`, or the length. */
  function FirstHash(pattern: seq<string>): (h: nat)
    ensures h <= |pattern| && (forall i :: 0 <= i < h ==> pattern[i] != "#") && (h < |pattern| ==> pattern[h] == "#")
  {
    if pattern == [] || pattern[0] == "#" then 0 else 1 + FirstHash(pattern[1..])
  }

  /** What precedes the first `#` fits, and without a `#` the lengths agree. */
  predicate LoopFits(key: seq<string>, pattern: seq<string>) {
    var h := FirstHash(pattern);
    PrefixFits(key, pattern[..h]) && (h < |pattern| || |key| == |pattern|)
  }

  lemma PrefixGrows(key: seq<string>, pattern: seq<string>, i: nat)
    requires i < |pattern| && PrefixFits(key, pattern[..i]) && WordFits(key, pattern, i)
    ensures PrefixFits(key, pattern[..i + 1])
  {
    var longer := pattern[..i + 1];
    forall j | 0 <= j < |longer| ensures WordFits(key, longer, j) {
      if j < i { assert WordFits(key, pattern[..i], j); }
    }
  }

  predicate Accepts(key: string, p: string) { key == p || LoopFits(Split(key, '.'), Split(p, '.')) }

  function Patterns(pattern: Pattern): seq<string> {
    match pattern
    case Undefined => []
    case One(p) => [p]
    case Many(ps) => ps
  }

  lemma PatternsExact(key: string, pattern: Pattern)
    ensures (exists k :: 0 <= k < |Patterns(pattern)| && Accepts(key, Patterns(pattern)[k])) <==>
      match pattern
      case Undefined => false
      case One(p) => Accepts(key, p)
      case Many(ps) => exists p :: p in ps && Accepts(key, p)
  {
    if pattern.One? { assert Patterns(pattern)[0] == pattern.p; }
    if pattern.Many? {
      if p :| p in pattern.ps && Accepts(key, p) {
        var k :| 0 <= k < |pattern.ps| && pattern.ps[k] == p;
        assert Accepts(key, Patterns(pattern)[k]);
      }
    }
  }

  method MatchesRoutingKey(routingKey: string, pattern: Pattern) returns (matches: bool)
    ensures matches <==> exists k :: 0 <= k < |Patterns(pattern)| && Accepts(routingKey, Patterns(pattern)[k])
    ensures match pattern
      case Undefined => !matches
      case One(p) => matches <==> Accepts(routingKey, p)
      case Many(ps) => matches <==> exists p :: p in ps && Accepts(routingKey, p)
  {
    PatternsExact(routingKey, pattern);
    if pattern.Undefined? || (pattern.Many? && |pattern.ps| == 0) { return false; }
    var patterns := if pattern.Many? then pattern.ps else [pattern.p];
    assert patterns == Patterns(pattern);
    for k := 0 to |patterns|
      invariant forall j :: 0 <= j < k ==> !Accepts(routingKey, patterns[j])
    {
      var fits := routingKey == patterns[k];
      if !fits { fits := MatchWords(Split(routingKey, '.'), Split(patterns[k], '.')); }
      if fits {
        assert Accepts(routingKey, Patterns(pattern)[k]);
        return true;
      }
    }
    matches := false;
  }

  /** The inner loop, over the words of one pattern. */
  method MatchWords(splitKey: seq<string>, splitPattern: seq<string>) returns (matches: bool)
    ensures matches <==> LoopFits(splitKey, splitPattern)
  {
    ghost var h := FirstHash(splitPattern);
    var starFailed := false;
    var i := 0;
    while i < |splitPattern|
      invariant i <= h
      invariant PrefixFits(splitKey, splitPattern[..i])
    {
      if splitPattern[i] == "#" { return true; }
      if splitPattern[i] != "*" && (i >= |splitKey| || splitPattern[i] != splitKey[i]) {
        starFailed := true;
        assert !WordFits(splitKey, splitPattern[..h], i);
        break;
      }
      PrefixGrows(splitKey, splitPattern, i);
      i := i + 1;
    }
    matches := !starFailed && |splitKey| == |splitPattern|;
  }

  // ---- The topic rules ----------------------------------------------------------------------------

  predicate TopicMatch(words: seq<string>, pattern: seq<string>)
    decreases |words| + |pattern|
  {
    if pattern == [] then words == []
    else if pattern[0] == "#" then
      TopicMatch(words, pattern[1..]) || (words != [] && TopicMatch(words[1..], pattern))
    else words != [] && (pattern[0] == "*" || pattern[0] == words[0]) && TopicMatch(words[1..], pattern[1..])
  }

  /** A routing key is zero or more words; JavaScript's split gives the empty key one empty word. */
  function TopicWords(s: string): seq<string> { if s == "" then [] else Split(s, '.') }

  predicate Topic(key: string, p: string) { TopicMatch(TopicWords(key), TopicWords(p)) }

  /** Up to the first `#` the rules compare word by word; from a `#` on, anything may follow if the
      pattern ends there. */
  lemma {:induction false} TopicIsPrefix(words: seq<string>, pattern: seq<string>)
    ensures var h := FirstHash(pattern);
      && (TopicMatch(words, pattern) ==> h <= |words| && PrefixFits(words, pattern[..h]))
      && (h == |pattern| ==> (TopicMatch(words, pattern) <==> |words| == h && PrefixFits(words, pattern)))
      && (h == |pattern| - 1 ==> (TopicMatch(words, pattern) <==> h <= |words| && PrefixFits(words, pattern[..h])))
    decreases |pattern|
  {
    var h := FirstHash(pattern);
    if pattern == [] {
    } else if pattern[0] == "#" {
      if |pattern| == 1 { HashMatchesAll(words); assert pattern == ["#"]; }
    } else if words != [] {
      TopicIsPrefix(words[1..], pattern[1..]);
      PrefixStep(words, pattern[..h]);
      assert pattern[..h][1..] == pattern[1..][..h - 1];
      if h == |pattern| { assert pattern[..h] == pattern && pattern[1..][..h - 1] == pattern[1..]; }
    }
  }

  lemma {:induction false} HashMatchesAll(words: seq<string>)
    ensures TopicMatch(words, ["#"])
    decreases |words|
  {
    if words == [] { assert TopicMatch(words, ["#"][1..]); } else { HashMatchesAll(words[1..]); }
  }

  lemma PrefixStep(words: seq<string>, pattern: seq<string>)
    requires words != [] && pattern != []
    ensures PrefixFits(words, pattern) <==> WordFits(words, pattern, 0) && PrefixFits(words[1..], pattern[1..])
  {
    if PrefixFits(words, pattern) {
      forall i | 0 <= i < |pattern[1..]| ensures WordFits(words[1..], pattern[1..], i) {
        assert WordFits(words, pattern, i + 1);
      }
    }
    if PrefixFits(words[1..], pattern[1..]) {
      forall i | 0 < i < |pattern| ensures WordFits(words, pattern, i) {
        assert WordFits(words[1..], pattern[1..], i - 1);
      }
    }
  }

  lemma {:induction false} TopicSelf(words: seq<string>)
    ensures TopicMatch(words, words)
  {
    if words != [] {
      TopicSelf(words[1..]);
    }
  }

  lemma EmptySplit()
    ensures Split("", '.') == [""]
  {
  }

  // ---- How the two compare ------------------------------------------------------------------------

  /** The consumer never turns away a delivery the topic rules accept. */
  lemma NeverRejectsATopicMatch(key: string, p: string)
    requires Topic(key, p)
    ensures Accepts(key, p)
  {
    TopicIsPrefix(TopicWords(key), TopicWords(p));
    EmptySplit();
  }

  lemma SplitOnce(s: string)
    ensures |Split(s, '.')| == 1 ==> Split(s, '.') == [s]
  {
    JoinSplit(s, '.');
  }

  /** The empty key is one empty word to the consumer and no word to the rules. */
  lemma EmptyWithoutHash(key: string, p: string)
    requires key == "" || p == ""
    requires FirstHash(Split(p, '.')) == |Split(p, '.')|
    ensures Accepts(key, p) <==> key == p || (key == "" && p == "*")
    ensures Topic(key, p) <==> key == p
  {
    var k, q := Split(key, '.'), Split(p, '.');
    EmptySplit();
    SplitOnce(key);
    SplitOnce(p);
    assert q[..|q|] == q;
    assert PrefixFits(k, q) ==> WordFits(k, q, 0);
    TopicIsPrefix(TopicWords(key), TopicWords(p));
  }

  lemma FullWithoutHash(key: string, p: string)
    requires key != "" && p != ""
    requires FirstHash(Split(p, '.')) == |Split(p, '.')|
    ensures Accepts(key, p) <==> Topic(key, p)
  {
    var k, q := Split(key, '.'), Split(p, '.');
    assert q[..|q|] == q;
    TopicIsPrefix(k, q);
    TopicSelf(k);
  }

  /** Without `#` the consumer decides by the topic rules, except for the empty key under `*`. */
  lemma AgreesWithoutHash(key: string, p: string)
    requires FirstHash(Split(p, '.')) == |Split(p, '.')|
    ensures (Accepts(key, p) <==> Topic(key, p)) <==> !(key == "" && p == "*")
  {
    if key == "" || p == "" { EmptyWithoutHash(key, p); } else { FullWithoutHash(key, p); }
  }

  /** A pattern whose only `#` ends it: the two disagree exactly on keys with fewer words than precede the
      `#` whose words fit while every word they lack is a `*`. */
  lemma AgreesOnTrailingHash(key: string, p: string)
    requires FirstHash(Split(p, '.')) == |Split(p, '.')| - 1
    ensures var n := |Split(p, '.')| - 1;
      (Accepts(key, p) <==> Topic(key, p))
      <==> !(|TopicWords(key)| < n && PrefixFits(Split(key, '.'), Split(p, '.')[..n]))
  {
    EmptySplit();
    TopicIsPrefix(TopicWords(key), TopicWords(p));
    TopicSelf(TopicWords(key));
  }

  /** The words up to length `n`, each missing one written as a `*`, which no pattern word but `*` fits. */
  function Padded(words: seq<string>, n: nat): seq<string> {
    if |words| < n then words + seq(n - |words|, _ => "*") else words
  }

  lemma PaddingFits(words: seq<string>, pattern: seq<string>)
    ensures PrefixFits(words, pattern) <==> PrefixFits(Padded(words, |pattern|), pattern)
  {
    var padded := Padded(words, |pattern|);
    forall i | 0 <= i < |pattern| ensures WordFits(words, pattern, i) <==> WordFits(padded, pattern, i) { }
  }

  /** In general the consumer reads a pattern only up to its first `#`: it decides by the topic rules of the
      pattern cut off there, taking every word the key lacks before it for one that a `*` matches. */
  lemma ReadsUpToFirstHash(key: string, p: string)
    requires FirstHash(Split(p, '.')) < |Split(p, '.')|
    ensures var q := Split(p, '.');
      var h := FirstHash(q);
      Accepts(key, p) <==> key == p || TopicMatch(Padded(Split(key, '.'), h), q[..h] + ["#"])
  {
    var k, q := Split(key, '.'), Split(p, '.');
    var h := FirstHash(q);
    var cut := q[..h] + ["#"];
    FirstHashUnique(cut, h);
    PaddingFits(k, q[..h]);
    TopicIsPrefix(Padded(k, h), cut);
    assert cut[..h] == q[..h];
  }

  lemma {:induction false} FirstHashUnique(pattern: seq<string>, h: nat)
    requires h < |pattern| && pattern[h] == "#" && forall i :: 0 <= i < h ==> pattern[i] != "#"
    ensures FirstHash(pattern) == h
  {
  }

  /** So it accepts keys the rules reject, here because `b` after the `#` is never looked at. */
  lemma AcceptsMoreThanTopic()
    ensures Accepts("a.x", "#.b") && !Topic("a.x", "#.b")
  {
    assert Split("a.x", '.') == ["a", "x"] by {
      assert "a.x"[..1] == "a" && "a.x"[2..] == "x";
      SplitJoin(["a", "x"], '.');
      assert ["a", "x"][1..] == ["x"];
    }
    assert Split("#.b", '.') == ["#", "b"] by {
      assert "#.b"[..1] == "#" && "#.b"[2..] == "b";
      SplitJoin(["#", "b"], '.');
      assert ["#", "b"][1..] == ["b"];
    }
    assert ["#", "b"][1..] == ["b"] && ["a", "x"][1..] == ["x"] && ["b"][1..] == [] && ["x"][1..] == [];
    assert !TopicMatch(["a", "x"], ["b"]) && !TopicMatch(["x"], ["b"]) && !TopicMatch([], ["b"]);
    assert !TopicMatch([], ["#", "b"]) && !TopicMatch(["x"], ["#", "b"]);
  }
}
