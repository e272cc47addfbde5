/** `stableStringify`: the order-independent JSON text the route diff compares.
    Values are what a message body can hold, plus `Absent` for everything `JSON.stringify` cannot
    render (an undefined field, a non-finite number), which the code prints as `null`. A number is
    represented by its ECMAScript text, which identifies it. */
module CanonicalJson {
  import opened Ordering

  datatype Json =
    | Null
    | Absent
    | Bool(b: bool)
    | Num(text: string)
    | Str(s: string)
    | Arr(items: seq<Json>)
    | Obj(fields: seq<Field>)

  /** One own property, in `Object.keys` order. */
  datatype Field = Field(key: string, value: Json)

  // ---- Well-formed values ---------------------------------------------------------------------

  predicate IsDigit(c: char) { '0' <= c <= '9' }

  predicate IsNumeralChar(c: char) { IsDigit(c) || c == '-' || c == '+' || c == '.' || c == 'e' }

  predicate IsNumeral(t: string) {
    t != "" && (IsDigit(t[0]) || t[0] == '-') && forall i :: 0 <= i < |t| ==> IsNumeralChar(t[i])
  }

  function Keys(fields: seq<Field>): (keys: seq<string>)
    ensures |keys| == |fields|
    ensures forall i :: 0 <= i < |fields| ==> keys[i] == fields[i].key
  {
    seq(|fields|, i requires 0 <= i < |fields| => fields[i].key)
  }

  predicate Distinct(keys: seq<string>) {
    forall i, j :: 0 <= i < j < |keys| ==> keys[i] != keys[j]
  }

  /** A JavaScript value: real numerals, and no object with the same key twice. */
  predicate WellFormed(v: Json) {
    match v
    case Num(t) => IsNumeral(t)
    case Arr(items) => forall i :: 0 <= i < |items| ==> WellFormed(items[i])
    case Obj(fields) =>
      Distinct(Keys(fields)) && forall i :: 0 <= i < |fields| ==> WellFormed(fields[i].value)
    case _ => true
  }

  /** `value[k]` for a key the object has. */
  function Lookup(fields: seq<Field>, key: string): (v: Json)
    requires key in Keys(fields)
    ensures exists i :: 0 <= i < |fields| && fields[i] == Field(key, v)
  {
    if fields[0].key == key then
      assert fields[0] == Field(key, fields[0].value);
      fields[0].value
    else
      var v := Lookup(fields[1..], key);
      assert exists i :: 0 <= i < |fields[1..]| && fields[1..][i] == Field(key, v);
      var i :| 0 <= i < |fields[1..]| && fields[1..][i] == Field(key, v);
      assert fields[i + 1] == Field(key, v);
      v
  }

  function SortedKeys(fields: seq<Field>): (keys: seq<string>)
    ensures multiset(keys) == multiset(Keys(fields))
    ensures forall k :: k in keys <==> k in Keys(fields)
  {
    SortMultiset(LexLeq, Keys(fields));
    SortMembers(LexLeq, Keys(fields));
    StableSort(LexLeq, Keys(fields))
  }

  // ---- JSON.stringify of a string ---------------------------------------------------------------

  function Hex(n: nat): char
    requires n < 16
  {
    if n < 10 then '0' + n as char else 'a' + (n - 10) as char
  }

  function Escape(c: char): string {
    if c == '"' then "\\\""
    else if c == '\\' then "\\\\"
    else if c == 8 as char then "\\b"
    else if c == '\t' then "\\t"
    else if c == '\n' then "\\n"
    else if c == 12 as char then "\\f"
    else if c == '\r' then "\\r"
    else if c < ' ' then "\\u00" + [Hex(c as nat / 16), Hex(c as nat % 16)]
    else [c]
  }

  function QuoteBody(s: string): string {
    if s == "" then "" else Escape(s[0]) + QuoteBody(s[1..])
  }

  function Quote(s: string): string { "\"" + QuoteBody(s) + "\"" }

  // ---- stableStringify --------------------------------------------------------------------------

  function StableStringify(v: Json): string
    decreases v, 0
  {
    match v
    case Null => "null"
    case Absent => "null"
    case Bool(b) => if b then "true" else "false"
    case Num(t) => t
    case Str(s) => Quote(s)
    case Arr(items) => "[" + ItemsText(items) + "]"
    case Obj(fields) => "{" + MembersText(fields, SortedKeys(fields)) + "}"
  }

  function ItemsText(items: seq<Json>): string
    decreases items, 0
  {
    if items == [] then ""
    else StableStringify(items[0]) + (if |items| == 1 then "" else "," + ItemsText(items[1..]))
  }

  function MembersText(fields: seq<Field>, keys: seq<string>): string
    requires forall k :: k in keys ==> k in Keys(fields)
    decreases fields, |keys|
  {
    if keys == [] then ""
    else
      Quote(keys[0]) + ":" + StableStringify(Lookup(fields, keys[0]))
      + (if |keys| == 1 then "" else "," + MembersText(fields, keys[1..]))
  }

  // ---- Equality up to key order -----------------------------------------------------------------

  predicate Nullish(v: Json) { v.Null? || v.Absent? }

  /** Same value, ignoring the order of object keys and reading an unrenderable value as null. */
  ghost predicate Equivalent(a: Json, b: Json)
    decreases a
  {
    match a
    case Arr(xs) =>
      b.Arr? && |xs| == |b.items| && forall i :: 0 <= i < |xs| ==> Equivalent(xs[i], b.items[i])
    case Obj(fs) =>
      && b.Obj?
      && (forall k :: k in Keys(fs) <==> k in Keys(b.fields))
      && forall i, j :: 0 <= i < |fs| && 0 <= j < |b.fields| && fs[i].key == b.fields[j].key ==>
           Equivalent(fs[i].value, b.fields[j].value)
    case Null => Nullish(b)
    case Absent => Nullish(b)
    case _ => a == b
  }

  // ---- The canonical tree -----------------------------------------------------------------------

  function Canonical(v: Json): Json
    decreases v, 0
  {
    match v
    case Absent => Null
    case Arr(items) => Arr(CanonicalItems(items))
    case Obj(fields) => Obj(CanonicalMembers(fields, SortedKeys(fields)))
    case _ => v
  }

  function CanonicalItems(items: seq<Json>): (r: seq<Json>)
    ensures |r| == |items|
    decreases items, 0
  {
    if items == [] then [] else [Canonical(items[0])] + CanonicalItems(items[1..])
  }

  function CanonicalMembers(fields: seq<Field>, keys: seq<string>): (r: seq<Field>)
    requires forall k :: k in keys ==> k in Keys(fields)
    ensures |r| == |keys|
    ensures forall i :: 0 <= i < |keys| ==> r[i].key == keys[i]
    decreases fields, |keys|
  {
    if keys == [] then []
    else [Field(keys[0], Canonical(Lookup(fields, keys[0])))] + CanonicalMembers(fields, keys[1..])
  }

  /** Text of a canonical tree, objects in the order given. */
  function Render(v: Json): string
    decreases v, 0
  {
    match v
    case Null => "null"
    case Absent => "null"
    case Bool(b) => if b then "true" else "false"
    case Num(t) => t
    case Str(s) => Quote(s)
    case Arr(items) => "[" + RenderItems(items) + "]"
    case Obj(fields) => "{" + RenderMembers(fields) + "}"
  }

  function RenderItems(items: seq<Json>): string
    decreases items, 0
  {
    if items == [] then ""
    else Render(items[0]) + (if |items| == 1 then "" else "," + RenderItems(items[1..]))
  }

  function RenderMembers(fields: seq<Field>): string
    decreases fields, 0
  {
    if fields == [] then ""
    else
      Quote(fields[0].key) + ":" + Render(fields[0].value)
      + (if |fields| == 1 then "" else "," + RenderMembers(fields[1..]))
  }

  /** Trees without `Absent` whose numbers are numerals: the image of `Canonical`. */
  predicate Tidy(v: Json) {
    match v
    case Absent => false
    case Num(t) => IsNumeral(t)
    case Arr(items) => forall i :: 0 <= i < |items| ==> Tidy(items[i])
    case Obj(fields) => forall i :: 0 <= i < |fields| ==> Tidy(fields[i].value)
    case _ => true
  }

  lemma {:induction false} StringifyIsRender(v: Json)
    ensures StableStringify(v) == Render(Canonical(v))
    decreases v, 0
  {
    match v
    case Arr(items) => ItemsAreRender(items);
    case Obj(fields) => MembersAreRender(fields, SortedKeys(fields));
    case _ =>
  }

  lemma {:induction false} ItemsAreRender(items: seq<Json>)
    ensures ItemsText(items) == RenderItems(CanonicalItems(items))
    decreases items, 0
  {
    if items != [] {
      StringifyIsRender(items[0]);
      ItemsAreRender(items[1..]);
      assert CanonicalItems(items)[1..] == CanonicalItems(items[1..]);
    }
  }

  lemma {:induction false} MembersAreRender(fields: seq<Field>, keys: seq<string>)
    requires forall k :: k in keys ==> k in Keys(fields)
    ensures MembersText(fields, keys) == RenderMembers(CanonicalMembers(fields, keys))
    decreases fields, |keys|
  {
    if keys != [] {
      StringifyIsRender(Lookup(fields, keys[0]));
      MembersAreRender(fields, keys[1..]);
      assert CanonicalMembers(fields, keys)[1..] == CanonicalMembers(fields, keys[1..]);
    }
  }

  lemma {:induction false} CanonicalTidy(v: Json)
    requires WellFormed(v)
    ensures Tidy(Canonical(v))
    decreases v, 0
  {
    match v
    case Arr(items) => CanonicalItemsTidy(items);
    case Obj(fields) => CanonicalMembersTidy(fields, SortedKeys(fields));
    case _ =>
  }

  lemma {:induction false} CanonicalItemsTidy(items: seq<Json>)
    requires forall i :: 0 <= i < |items| ==> WellFormed(items[i])
    ensures forall i :: 0 <= i < |items| ==>
      CanonicalItems(items)[i] == Canonical(items[i]) && Tidy(CanonicalItems(items)[i])
    decreases items, 0
  {
    if items != [] {
      CanonicalTidy(items[0]);
      CanonicalItemsTidy(items[1..]);
    }
  }

  lemma {:induction false} CanonicalMembersTidy(fields: seq<Field>, keys: seq<string>)
    requires forall k :: k in keys ==> k in Keys(fields)
    requires forall i :: 0 <= i < |fields| ==> WellFormed(fields[i].value)
    ensures forall i :: 0 <= i < |keys| ==>
      var r := CanonicalMembers(fields, keys);
      r[i].value == Canonical(Lookup(fields, keys[i])) && Tidy(r[i].value)
    decreases fields, |keys|
  {
    if keys != [] {
      CanonicalTidy(Lookup(fields, keys[0]));
      CanonicalMembersTidy(fields, keys[1..]);
    }
  }

  // ---- Rendering can be read back in one way only -------------------------------------------------

  /** Two concatenations with a first part of the same length split the same way. */
  lemma Cancel(a: string, s: string, b: string, t: string)
    requires a + s == b + t && |a| == |b|
    ensures a == b && s == t
  {
    assert a == (a + s)[..|a|] && b == (b + t)[..|b|];
    assert s == (a + s)[|a|..] && t == (b + t)[|b|..];
  }

  lemma EscapePrefix(c: char, d: char, s: string, t: string)
    requires Escape(c) + s == Escape(d) + t
    ensures c == d && s == t
  {
    var x, y := Escape(c) + s, Escape(d) + t;
    assert x[0] == Escape(c)[0] && y[0] == Escape(d)[0];
    if x[0] == '\\' {
      assert x[1] == Escape(c)[1] && y[1] == Escape(d)[1];
      if x[1] == 'u' {
        assert x[4] == Escape(c)[4] == Hex(c as nat / 16) && x[5] == Escape(c)[5] == Hex(c as nat % 16);
        assert y[4] == Escape(d)[4] == Hex(d as nat / 16) && y[5] == Escape(d)[5] == Hex(d as nat % 16);
      }
    }
    Cancel(Escape(c), s, Escape(d), t);
  }

  /** An escaped character never starts with a quote, so the quote that ends a string is the first one. */
  lemma {:induction false} QuoteEmpty(a: string, s: string)
    ensures var text := QuoteBody(a) + "\"" + s;
      (text[0] == '"' <==> a == "") && (a == "" ==> text == "\"" + s)
  {
    if a != "" {
      assert QuoteBody(a)[0] == Escape(a[0])[0];
    }
  }

  lemma QuoteSplit(a: string, s: string)
    requires a != ""
    ensures QuoteBody(a) + "\"" + s == Escape(a[0]) + (QuoteBody(a[1..]) + "\"" + s)
  {
  }

  lemma {:induction false} QuotePrefix(a: string, b: string, s: string, t: string)
    requires QuoteBody(a) + "\"" + s == QuoteBody(b) + "\"" + t
    ensures a == b && s == t
  {
    QuoteEmpty(a, s);
    QuoteEmpty(b, t);
    if a == "" {
      Cancel("\"", s, "\"", t);
    } else {
      var restA, restB := QuoteBody(a[1..]) + "\"" + s, QuoteBody(b[1..]) + "\"" + t;
      QuoteSplit(a, s);
      QuoteSplit(b, t);
      EscapePrefix(a[0], b[0], restA, restB);
      QuotePrefix(a[1..], b[1..], s, t);
      assert a == [a[0]] + a[1..] && b == [b[0]] + b[1..];
    }
  }

  /** What may follow a value: the end of the text or a delimiter. */
  predicate Stop(s: string) { s == "" || s[0] == ',' || s[0] == ']' || s[0] == '}' }

  /** Length of the longest numeral-like start of a text. */
  function Span(x: string): nat {
    if x == "" || !IsNumeralChar(x[0]) then 0 else 1 + Span(x[1..])
  }

  lemma {:induction false} SpanOfNumeral(a: string, s: string)
    requires (forall i :: 0 <= i < |a| ==> IsNumeralChar(a[i])) && Stop(s)
    ensures Span(a + s) == |a|
  {
    if a == "" {
      assert a + s == s;
    } else {
      assert (a + s)[1..] == a[1..] + s;
      SpanOfNumeral(a[1..], s);
    }
  }

  lemma NumeralPrefix(a: string, b: string, s: string, t: string)
    requires forall i :: 0 <= i < |a| ==> IsNumeralChar(a[i])
    requires forall i :: 0 <= i < |b| ==> IsNumeralChar(b[i])
    requires Stop(s) && Stop(t) && a + s == b + t
    ensures a == b && s == t
  {
    SpanOfNumeral(a, s);
    SpanOfNumeral(b, t);
    Cancel(a, s, b, t);
  }

  lemma {:induction false} RenderPrefix(a: Json, b: Json, s: string, t: string)
    requires Tidy(a) && Tidy(b) && Stop(s) && Stop(t)
    requires Render(a) + s == Render(b) + t
    ensures a == b && s == t
    decreases a, 0
  {
    assert Render(a)[0] == (Render(a) + s)[0] == (Render(b) + t)[0] == Render(b)[0];
    match a
    case Null => Cancel(Render(a), s, Render(b), t);
    case Bool(x) => Cancel(Render(a), s, Render(b), t);
    case Num(x) => NumeralPrefix(x, b.text, s, t);
    case Str(x) => StrPrefix(x, b.s, s, t);
    case Arr(xs) => ArrPrefix(xs, b.items, s, t);
    case Obj(fs) => ObjPrefix(fs, b.fields, s, t);
  }

  lemma StrPrefix(x: string, y: string, s: string, t: string)
    requires Quote(x) + s == Quote(y) + t
    ensures x == y && s == t
  {
    assert Quote(x) + s == "\"" + (QuoteBody(x) + "\"" + s);
    assert Quote(y) + t == "\"" + (QuoteBody(y) + "\"" + t);
    Cancel("\"", QuoteBody(x) + "\"" + s, "\"", QuoteBody(y) + "\"" + t);
    QuotePrefix(x, y, s, t);
  }

  lemma {:induction false} ArrPrefix(xs: seq<Json>, ys: seq<Json>, s: string, t: string)
    requires forall i :: 0 <= i < |xs| ==> Tidy(xs[i])
    requires forall i :: 0 <= i < |ys| ==> Tidy(ys[i])
    requires "[" + RenderItems(xs) + "]" + s == "[" + RenderItems(ys) + "]" + t
    ensures xs == ys && s == t
    decreases xs, 1
  {
    assert "[" + RenderItems(xs) + "]" + s == "[" + (RenderItems(xs) + "]" + s);
    assert "[" + RenderItems(ys) + "]" + t == "[" + (RenderItems(ys) + "]" + t);
    Cancel("[", RenderItems(xs) + "]" + s, "[", RenderItems(ys) + "]" + t);
    RenderItemsPrefix(xs, ys, s, t);
  }

  lemma BraceRegroup(members: string, s: string)
    ensures "{" + members + "}" + s == "{" + (members + "}" + s)
  {
  }

  lemma {:induction false} ObjPrefix(xs: seq<Field>, ys: seq<Field>, s: string, t: string)
    requires forall i :: 0 <= i < |xs| ==> Tidy(xs[i].value)
    requires forall i :: 0 <= i < |ys| ==> Tidy(ys[i].value)
    requires "{" + RenderMembers(xs) + "}" + s == "{" + RenderMembers(ys) + "}" + t
    ensures xs == ys && s == t
    decreases xs, 1
  {
    BraceRegroup(RenderMembers(xs), s);
    BraceRegroup(RenderMembers(ys), t);
    Cancel("{", RenderMembers(xs) + "}" + s, "{", RenderMembers(ys) + "}" + t);
    RenderMembersPrefix(xs, ys, s, t);
  }

  /** Text after the first of the remaining items. */
  function AfterItem(items: seq<Json>, s: string): string
    requires items != []
  {
    if |items| == 1 then "]" + s else "," + (RenderItems(items[1..]) + "]" + s)
  }

  lemma {:induction false} ItemsSplit(items: seq<Json>, s: string)
    requires items != []
    ensures RenderItems(items) + "]" + s == Render(items[0]) + AfterItem(items, s)
  {
  }

  /** The text closes at once exactly when nothing is left. */
  lemma {:induction false} ItemsEmpty(zs: seq<Json>, s: string)
    requires forall i :: 0 <= i < |zs| ==> Tidy(zs[i])
    ensures var text := RenderItems(zs) + "]" + s;
      (text[0] == ']' <==> zs == []) && (zs == [] ==> text == "]" + s)
  {
    if zs != [] {
      ItemsSplit(zs, s);
    }
  }

  /** After equal first items, the same text follows only if both lists end or both go on. */
  lemma AfterItemsAgree(xs: seq<Json>, ys: seq<Json>, s: string, t: string)
    requires xs != [] && ys != [] && AfterItem(xs, s) == AfterItem(ys, t)
    ensures |xs| == 1 <==> |ys| == 1
    ensures |xs| == 1 ==> s == t
    ensures |xs| > 1 ==> RenderItems(xs[1..]) + "]" + s == RenderItems(ys[1..]) + "]" + t
  {
    assert AfterItem(xs, s)[0] == AfterItem(ys, t)[0];
    assert s == ("]" + s)[1..] && t == ("]" + t)[1..];
    if |xs| > 1 && |ys| > 1 {
      Cancel(",", RenderItems(xs[1..]) + "]" + s, ",", RenderItems(ys[1..]) + "]" + t);
    }
  }

  lemma {:induction false} RenderItemsPrefix(xs: seq<Json>, ys: seq<Json>, s: string, t: string)
    requires forall i :: 0 <= i < |xs| ==> Tidy(xs[i])
    requires forall i :: 0 <= i < |ys| ==> Tidy(ys[i])
    requires RenderItems(xs) + "]" + s == RenderItems(ys) + "]" + t
    ensures xs == ys && s == t
    decreases xs, 0
  {
    ItemsEmpty(xs, s);
    ItemsEmpty(ys, t);
    if xs == [] {
      Cancel("]", s, "]", t);
    } else {
      ItemsSplit(xs, s);
      ItemsSplit(ys, t);
      RenderPrefix(xs[0], ys[0], AfterItem(xs, s), AfterItem(ys, t));
      AfterItemsAgree(xs, ys, s, t);
      if |xs| > 1 { RenderItemsPrefix(xs[1..], ys[1..], s, t); }
    }
  }

  function AfterMember(fields: seq<Field>, s: string): string
    requires fields != []
  {
    if |fields| == 1 then "}" + s else "," + (RenderMembers(fields[1..]) + "}" + s)
  }

  lemma {:induction false} MembersSplit(fields: seq<Field>, s: string)
    requires fields != []
    ensures RenderMembers(fields) + "}" + s
         == Quote(fields[0].key) + (":" + (Render(fields[0].value) + AfterMember(fields, s)))
  {
    if |fields| > 1 {
      MoreRegroup(RenderMembers(fields[1..]), s);
    }
  }

  lemma MoreRegroup(more: string, s: string)
    ensures "," + more + "}" + s == "," + (more + "}" + s)
  {
  }

  /** The text closes at once exactly when nothing is left. */
  lemma {:induction false} MembersEmpty(zs: seq<Field>, s: string)
    ensures var text := RenderMembers(zs) + "}" + s;
      (text[0] == '}' <==> zs == []) && (zs == [] ==> text == "}" + s)
  {
    if zs != [] {
      MembersSplit(zs, s);
    }
  }

  lemma AfterMembersAgree(xs: seq<Field>, ys: seq<Field>, s: string, t: string)
    requires xs != [] && ys != [] && AfterMember(xs, s) == AfterMember(ys, t)
    ensures |xs| == 1 <==> |ys| == 1
    ensures |xs| == 1 ==> s == t
    ensures |xs| > 1 ==> RenderMembers(xs[1..]) + "}" + s == RenderMembers(ys[1..]) + "}" + t
  {
    assert AfterMember(xs, s)[0] == AfterMember(ys, t)[0];
    assert s == ("}" + s)[1..] && t == ("}" + t)[1..];
    if |xs| > 1 && |ys| > 1 {
      Cancel(",", RenderMembers(xs[1..]) + "}" + s, ",", RenderMembers(ys[1..]) + "}" + t);
    }
  }

  lemma {:induction false} RenderMembersPrefix(xs: seq<Field>, ys: seq<Field>, s: string, t: string)
    requires forall i :: 0 <= i < |xs| ==> Tidy(xs[i].value)
    requires forall i :: 0 <= i < |ys| ==> Tidy(ys[i].value)
    requires RenderMembers(xs) + "}" + s == RenderMembers(ys) + "}" + t
    ensures xs == ys && s == t
    decreases xs, 0
  {
    MembersEmpty(xs, s);
    MembersEmpty(ys, t);
    if xs == [] {
      Cancel("}", s, "}", t);
    } else {
      MembersSplit(xs, s);
      MembersSplit(ys, t);
      var restX := ":" + (Render(xs[0].value) + AfterMember(xs, s));
      var restY := ":" + (Render(ys[0].value) + AfterMember(ys, t));
      StrPrefix(xs[0].key, ys[0].key, restX, restY);
      Cancel(":", Render(xs[0].value) + AfterMember(xs, s), ":", Render(ys[0].value) + AfterMember(ys, t));
      RenderPrefix(xs[0].value, ys[0].value, AfterMember(xs, s), AfterMember(ys, t));
      AfterMembersAgree(xs, ys, s, t);
      if |xs| > 1 { RenderMembersPrefix(xs[1..], ys[1..], s, t); }
    }
  }

  // ---- Canonical trees decide equivalence ---------------------------------------------------------

  lemma DistinctMultiset(a: seq<string>, b: seq<string>)
    requires Distinct(a) && Distinct(b)
    ensures multiset(a) == multiset(b) <==> forall k :: k in a <==> k in b
  {
    DistinctCount(a);
    DistinctCount(b);
    forall k ensures multiset(a)[k] == multiset(b)[k] <==> (k in a <==> k in b) {
    }
  }

  lemma {:induction false} DistinctCount(a: seq<string>)
    requires Distinct(a)
    ensures forall k :: multiset(a)[k] == if k in a then 1 else 0
  {
    if a != [] {
      assert a == [a[0]] + a[1..];
      DistinctCount(a[1..]);
    }
  }

  lemma {:induction false} SortedKeysCanonical(xs: seq<Field>, ys: seq<Field>)
    requires Distinct(Keys(xs)) && Distinct(Keys(ys))
    ensures SortedKeys(xs) == SortedKeys(ys) <==> forall k :: k in Keys(xs) <==> k in Keys(ys)
  {
    LexOrder();
    SortCanonical(LexLeq, Keys(xs), Keys(ys));
    DistinctMultiset(Keys(xs), Keys(ys));
  }

  lemma {:induction false} CanonicalDecides(a: Json, b: Json)
    requires WellFormed(a) && WellFormed(b)
    ensures Canonical(a) == Canonical(b) <==> Equivalent(a, b)
    decreases a
  {
    if a.Arr? && b.Arr? {
      CanonicalItemsTidy(a.items);
      CanonicalItemsTidy(b.items);
      var ca, cb := CanonicalItems(a.items), CanonicalItems(b.items);
      if |a.items| == |b.items| {
        forall i | 0 <= i < |a.items| ensures ca[i] == cb[i] <==> Equivalent(a.items[i], b.items[i]) {
          CanonicalDecides(a.items[i], b.items[i]);
        }
        if forall i :: 0 <= i < |a.items| ==> Equivalent(a.items[i], b.items[i]) {
          assert ca == cb;
        }
      }
    } else if a.Obj? && b.Obj? {
      CanonicalObjects(a, b);
    }
  }

  lemma {:induction false} CanonicalObjects(a: Json, b: Json)
    requires a.Obj? && b.Obj? && WellFormed(a) && WellFormed(b)
    ensures Canonical(a) == Canonical(b) <==> Equivalent(a, b)
    decreases a, 0
  {
    var xs, ys := a.fields, b.fields;
    forall i, j | 0 <= i < |xs| && 0 <= j < |ys|
      ensures Canonical(xs[i].value) == Canonical(ys[j].value) <==> Equivalent(xs[i].value, ys[j].value)
    {
      CanonicalDecides(xs[i].value, ys[j].value);
    }
    if Canonical(a) == Canonical(b) { CanonicalMembersMatch(xs, ys); }
    if Equivalent(a, b) { MatchingMembersCanonical(xs, ys); }
  }

  /** The canonical member of each key carries that key's own value. */
  lemma {:induction false} CanonicalMemberAt(fields: seq<Field>, i: nat, n: nat)
    requires Distinct(Keys(fields)) && i < |fields| && n < |SortedKeys(fields)|
    requires forall i :: 0 <= i < |fields| ==> WellFormed(fields[i].value)
    requires SortedKeys(fields)[n] == fields[i].key
    ensures CanonicalMembers(fields, SortedKeys(fields))[n] == Field(fields[i].key, Canonical(fields[i].value))
  {
    CanonicalMembersTidy(fields, SortedKeys(fields));
  }

  lemma {:induction false} CanonicalMembersMatch(xs: seq<Field>, ys: seq<Field>)
    requires Distinct(Keys(xs)) && Distinct(Keys(ys))
    requires forall i :: 0 <= i < |xs| ==> WellFormed(xs[i].value)
    requires forall i :: 0 <= i < |ys| ==> WellFormed(ys[i].value)
    requires CanonicalMembers(xs, SortedKeys(xs)) == CanonicalMembers(ys, SortedKeys(ys))
    ensures forall k :: k in Keys(xs) <==> k in Keys(ys)
    ensures forall i, j :: 0 <= i < |xs| && 0 <= j < |ys| && xs[i].key == ys[j].key ==>
      Canonical(xs[i].value) == Canonical(ys[j].value)
  {
    var kx, ky := SortedKeys(xs), SortedKeys(ys);
    assert kx == ky by {
      var c := CanonicalMembers(xs, kx);
      assert forall i :: 0 <= i < |kx| ==> kx[i] == c[i].key;
      assert forall i :: 0 <= i < |ky| ==> ky[i] == c[i].key;
    }
    forall i, j | 0 <= i < |xs| && 0 <= j < |ys| && xs[i].key == ys[j].key
      ensures Canonical(xs[i].value) == Canonical(ys[j].value)
    {
      assert Keys(xs)[i] in kx;
      var n :| 0 <= n < |kx| && kx[n] == xs[i].key;
      CanonicalMemberAt(xs, i, n);
      CanonicalMemberAt(ys, j, n);
    }
  }

  lemma {:induction false} MatchingMembersCanonical(xs: seq<Field>, ys: seq<Field>)
    requires Distinct(Keys(xs)) && Distinct(Keys(ys))
    requires forall i :: 0 <= i < |xs| ==> WellFormed(xs[i].value)
    requires forall i :: 0 <= i < |ys| ==> WellFormed(ys[i].value)
    requires forall k :: k in Keys(xs) <==> k in Keys(ys)
    requires forall i, j :: 0 <= i < |xs| && 0 <= j < |ys| && xs[i].key == ys[j].key ==>
      Canonical(xs[i].value) == Canonical(ys[j].value)
    ensures CanonicalMembers(xs, SortedKeys(xs)) == CanonicalMembers(ys, SortedKeys(ys))
  {
    SortedKeysCanonical(xs, ys);
    var keys := SortedKeys(xs);
    var cx, cy := CanonicalMembers(xs, keys), CanonicalMembers(ys, keys);
    forall n | 0 <= n < |keys| ensures cx[n] == cy[n] {
      assert keys[n] in Keys(xs) && keys[n] in Keys(ys);
      var i :| 0 <= i < |xs| && Keys(xs)[i] == keys[n];
      var j :| 0 <= j < |ys| && Keys(ys)[j] == keys[n];
      CanonicalMemberAt(xs, i, n);
      CanonicalMemberAt(ys, j, n);
    }
  }

  /** The canonical-form theorem: two texts are equal exactly when the values are equal up to object
      key order. No nesting, delimiter or escape can make two different values print alike. */
  lemma StringifyDecidesEquivalence(a: Json, b: Json)
    requires WellFormed(a) && WellFormed(b)
    ensures StableStringify(a) == StableStringify(b) <==> Equivalent(a, b)
  {
    StringifyIsRender(a);
    StringifyIsRender(b);
    CanonicalTidy(a);
    CanonicalTidy(b);
    CanonicalDecides(a, b);
    if StableStringify(a) == StableStringify(b) {
      assert Render(Canonical(a)) + "" == Render(Canonical(b)) + "";
      RenderPrefix(Canonical(a), Canonical(b), "", "");
    }
  }
}
