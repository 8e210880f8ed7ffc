/**
  The canonical JSON text of evidence packages: object members in key order, no white space. Number tokens
  are kept as the text they print as.
*/
module CanonicalJson {
  import Sorting

  datatype Member = Member(key: string, value: Value)

  /** A JSON value; the members of an object are listed in any order. */
  datatype Value =
    | Null
    | Bool(b: bool)
    | Number(token: string)
    | Text(s: string)
    | Array(items: seq<Value>)
    | Object(members: seq<Member>)

  predicate IsNumberChar(c: char) {
    '0' <= c <= '9' || c == '-' || c == '+' || c == '.' || c == 'e' || c == 'E'
  }

  predicate StartsNumber(c: char) {
    '0' <= c <= '9' || c == '-'
  }

  predicate IsNumber(token: string) {
    |token| > 0 && StartsNumber(token[0]) && forall i :: 0 <= i < |token| ==> IsNumberChar(token[i])
  }

  predicate DistinctKeys(members: seq<Member>) {
    forall i, j :: 0 <= i < j < |members| ==> members[i].key != members[j].key
  }

  predicate Valid(v: Value) {
    match v
    case Number(token) => IsNumber(token)
    case Array(items) => forall i :: 0 <= i < |items| ==> Valid(items[i])
    case Object(members) => DistinctKeys(members) && forall i :: 0 <= i < |members| ==> Valid(members[i].value)
    case _ => true
  }

  /** Equal up to the order of object members (section 4 of RFC 8259). */
  ghost predicate Equivalent(a: Value, b: Value)
    decreases a
  {
    match a
    case Array(items) =>
      b.Array? && |items| == |b.items| && forall i :: 0 <= i < |items| ==> Equivalent(items[i], b.items[i])
    case Object(members) =>
      b.Object? && |members| == |b.members| && forall i :: 0 <= i < |members| ==> HasEquivalent(members[i], b.members)
    case _ => a == b
  }

  ghost predicate HasEquivalent(m: Member, members: seq<Member>)
    decreases m
  {
    exists j :: 0 <= j < |members| && members[j].key == m.key && Equivalent(m.value, members[j].value)
  }

  // ---------------------------------------------------------------- strings

  function Hex(d: nat): (c: char)
    requires d < 16
  {
    if d < 10 then '0' + d as char else 'a' + (d - 10) as char
  }

  function Escape(c: char): string {
    if c == '\"' then "\\\""
    else if c == '\\' then "\\\\"
    else if c as int == 8 then "\\b"
    else if c as int == 9 then "\\t"
    else if c as int == 10 then "\\n"
    else if c as int == 12 then "\\f"
    else if c as int == 13 then "\\r"
    else if (c as int) < 32 then "\\u00" + [Hex(c as int / 16), Hex(c as int % 16)]
    else [c]
  }

  /** What follows the opening quote. */
  function Quoted(s: string): string {
    if |s| == 0 then "\"" else Escape(s[0]) + Quoted(s[1..])
  }

  lemma HexIsInjective(d: nat, e: nat)
    requires d < 16 && e < 16 && Hex(d) == Hex(e)
    ensures d == e
  {
  }

  lemma EscapeIsInjective(c: char, d: char, x: string, y: string)
    requires Escape(c) + x == Escape(d) + y
    ensures c == d && x == y
  {
    var p, q := Escape(c) + x, Escape(d) + y;
    assert p[0] == Escape(c)[0] && q[0] == Escape(d)[0];
    if |Escape(c)| > 1 && |Escape(d)| > 1 {
      assert p[1] == Escape(c)[1] && q[1] == Escape(d)[1];
      if |Escape(c)| == 6 && |Escape(d)| == 6 {
        assert p[4] == Escape(c)[4] && q[4] == Escape(d)[4];
        assert p[5] == Escape(c)[5] && q[5] == Escape(d)[5];
        HexIsInjective(c as int / 16, d as int / 16);
        HexIsInjective(c as int % 16, d as int % 16);
      }
    }
    assert c == d;
    assert x == p[|Escape(c)|..] && y == q[|Escape(d)|..];
  }

  lemma EscapeIsNoQuote(c: char)
    ensures |Escape(c)| > 0 && Escape(c)[0] != '\"'
  {
  }

  lemma Associates(a: string, b: string, c: string)
    ensures a + b + c == a + (b + c)
  {
  }

  lemma QuotedStarts(s: string, x: string)
    ensures |s| == 0 ==> Quoted(s) + x == "\"" + x
    ensures |s| > 0 ==> Quoted(s) + x == Escape(s[0]) + (Quoted(s[1..]) + x)
  {
    hide Escape;
    if |s| > 0 {
      Associates(Escape(s[0]), Quoted(s[1..]), x);
    }
  }

  lemma QuotedFirst(s: string, x: string)
    ensures |Quoted(s)| > 0 && (Quoted(s) + x)[0] == Quoted(s)[0]
    ensures Quoted(s)[0] == '\"' <==> |s| == 0
  {
    if |s| > 0 {
      EscapeIsNoQuote(s[0]);
      hide Escape;
      assert Quoted(s)[0] == Escape(s[0])[0];
    }
  }

  lemma CutFirst(a: string, b: string, p: string, q: string)
    requires |a| == 1 && |b| == 1 && a + p == b + q
    ensures p == q
  {
    assert p == (a + p)[1..] && q == (b + q)[1..];
  }

  lemma {:induction false} QuotedIsInjective(s: string, t: string, x: string, y: string)
    requires Quoted(s) + x == Quoted(t) + y
    ensures s == t && x == y
  {
    hide Escape, Quoted;
    QuotedStarts(s, x);
    QuotedStarts(t, y);
    QuotedFirst(s, x);
    QuotedFirst(t, y);
    if |s| == 0 {
      CutFirst("\"", "\"", x, y);
    } else {
      EscapeIsInjective(s[0], t[0], Quoted(s[1..]) + x, Quoted(t[1..]) + y);
      QuotedIsInjective(s[1..], t[1..], x, y);
      assert s == [s[0]] + s[1..] && t == [t[0]] + t[1..];
    }
  }

  /** `serde_json::to_string` of a string. */
  function Quote(s: string): string {
    "\"" + Quoted(s)
  }

  lemma QuoteIsInjective(s: string, t: string, x: string, y: string)
    requires Quote(s) + x == Quote(t) + y
    ensures s == t && x == y
  {
    hide Quoted;
    assert Quote(s) + x == "\"" + (Quoted(s) + x) && Quote(t) + y == "\"" + (Quoted(t) + y);
    CutFirst("\"", "\"", Quoted(s) + x, Quoted(t) + y);
    QuotedIsInjective(s, t, x, y);
  }

  // ---------------------------------------------------------------- key order

  /** Byte order of UTF-8, which is the order of code points. */
  predicate StringLe(a: string, b: string) {
    |a| == 0 || (|b| > 0 && if a[0] != b[0] then a[0] < b[0] else StringLe(a[1..], b[1..]))
  }

  lemma {:induction false} StringLeTotal(a: string, b: string)
    ensures StringLe(a, b) || StringLe(b, a)
    ensures StringLe(a, b) && StringLe(b, a) ==> a == b
  {
    if |a| > 0 && |b| > 0 {
      StringLeTotal(a[1..], b[1..]);
      assert a == [a[0]] + a[1..] && b == [b[0]] + b[1..];
    }
  }

  lemma {:induction false} StringLeTransitive(a: string, b: string, c: string)
    requires StringLe(a, b) && StringLe(b, c)
    ensures StringLe(a, c)
  {
    if |a| > 0 && a[0] == b[0] == c[0] {
      StringLeTransitive(a[1..], b[1..], c[1..]);
    }
  }

  /** A key with the text of its value. */
  datatype Part = Part(key: string, text: string)

  predicate PartLe(p: Part, q: Part) {
    StringLe(p.key, q.key)
  }

  lemma PartOrder()
    ensures Sorting.Preorder(PartLe)
  {
    hide StringLe;
    forall p, q ensures PartLe(p, q) || PartLe(q, p) {
      StringLeTotal(p.key, q.key);
    }
    forall p, q, r | PartLe(p, q) && PartLe(q, r) ensures PartLe(p, r) {
      StringLeTransitive(p.key, q.key, r.key);
    }
  }

  // ---------------------------------------------------------------- the text

  function Entry(p: Part): string {
    Quote(p.key) + ":" + p.text
  }

  function Tail(texts: seq<string>, close: char): string {
    if |texts| == 0 then [close] else "," + texts[0] + Tail(texts[1..], close)
  }

  /** Texts separated by commas, and the closing bracket. */
  function Body(texts: seq<string>, close: char): string {
    if |texts| == 0 then [close] else texts[0] + Tail(texts[1..], close)
  }

  function Entries(parts: seq<Part>): seq<string> {
    seq(|parts|, i requires 0 <= i < |parts| => Entry(parts[i]))
  }

  function Canonical(v: Value): string {
    match v
    case Null => "null"
    case Bool(b) => if b then "true" else "false"
    case Number(token) => token
    case Text(s) => Quote(s)
    case Array(items) =>
      "[" + Body(seq(|items|, i requires 0 <= i < |items| => Canonical(items[i])), ']')
    case Object(members) =>
      var parts := seq(|members|, i requires 0 <= i < |members| => Part(members[i].key, Canonical(members[i].value)));
      "{" + Body(Entries(Sorting.Sort(parts, PartLe)), '}')
  }

  function Texts(items: seq<Value>): seq<string> {
    seq(|items|, i requires 0 <= i < |items| => Canonical(items[i]))
  }

  function Parts(members: seq<Member>): seq<Part> {
    seq(|members|, i requires 0 <= i < |members| => Part(members[i].key, Canonical(members[i].value)))
  }

  function SortedParts(members: seq<Member>): seq<Part> {
    Sorting.Sort(Parts(members), PartLe)
  }

  lemma CanonicalArray(items: seq<Value>)
    ensures Canonical(Array(items)) == "[" + Body(Texts(items), ']')
  {
    assert Texts(items) == seq(|items|, i requires 0 <= i < |items| => Canonical(items[i]));
  }

  lemma CanonicalObject(members: seq<Member>)
    ensures Canonical(Object(members)) == "{" + Body(Entries(SortedParts(members)), '}')
  {
    assert Parts(members) == seq(|members|, i requires 0 <= i < |members| => Part(members[i].key, Canonical(members[i].value)));
  }

  /** What may follow a value inside a text. */
  predicate Ends(x: string) {
    |x| == 0 || x[0] == ',' || x[0] == ']' || x[0] == '}'
  }

  /** The first character tells the kind of value. */
  function Kind(c: char): nat {
    if c == 'n' then 0 else if c == 't' || c == 'f' then 1 else if StartsNumber(c) then 2
    else if c == '\"' then 3 else if c == '[' then 4 else if c == '{' then 5 else 6
  }

  function KindOf(v: Value): nat {
    match v
    case Null => 0
    case Bool(_) => 1
    case Number(_) => 2
    case Text(_) => 3
    case Array(_) => 4
    case Object(_) => 5
  }

  lemma FirstCharacter(v: Value, x: string)
    requires Valid(v)
    ensures |Canonical(v)| > 0 && (Canonical(v) + x)[0] == Canonical(v)[0] && Kind(Canonical(v)[0]) == KindOf(v)
  {
    hide Body, Texts, Entries, SortedParts, Quoted;
    match v
    case Array(items) => BracketFirst('[', Body(Texts(items), ']'));
      CanonicalArray(items);
    case Object(members) => BracketFirst('{', Body(Entries(SortedParts(members)), '}'));
      CanonicalObject(members);
    case Text(s) => BracketFirst('\"', Quoted(s));
    case _ =>
  }

  lemma BracketFirst(c: char, x: string)
    ensures ([c] + x)[0] == c
  {
  }

  lemma SameStart(a: Value, b: Value, x: string, y: string)
    requires Valid(a) && Valid(b) && Canonical(a) + x == Canonical(b) + y
    ensures KindOf(a) == KindOf(b)
  {
    hide Canonical, Valid;
    FirstCharacter(a, x);
    FirstCharacter(b, y);
  }

  /** The length of a number at the start of a text. */
  function Leading(p: string): nat {
    if |p| == 0 || !IsNumberChar(p[0]) then 0 else 1 + Leading(p[1..])
  }

  lemma {:induction false} LeadingIs(a: string, x: string)
    requires Ends(x) && forall i :: 0 <= i < |a| ==> IsNumberChar(a[i])
    ensures Leading(a + x) == |a|
  {
    if |a| == 0 {
      assert a + x == x;
    } else {
      assert (a + x)[0] == a[0] && (a + x)[1..] == a[1..] + x;
      LeadingIs(a[1..], x);
    }
  }

  lemma NumbersAreDelimited(a: string, b: string, x: string, y: string)
    requires IsNumber(a) && IsNumber(b) && Ends(x) && Ends(y) && a + x == b + y
    ensures a == b && x == y
  {
    LeadingIs(a, x);
    LeadingIs(b, y);
    var p, q := a + x, b + y;
    assert a == p[..|a|] && b == q[..|b|];
    assert x == p[|a|..] && y == q[|b|..];
  }

  /** Different values have texts that differ, even inside longer texts. */
  lemma {:induction false} CanonicalIsInjective(a: Value, b: Value, x: string, y: string)
    requires Valid(a) && Valid(b) && Ends(x) && Ends(y)
    requires Canonical(a) + x == Canonical(b) + y
    ensures Equivalent(a, b) && x == y
    decreases a, 1, 0
  {
    SameStart(a, b, x, y);
    match a {
      case Null =>
        assert x == (Canonical(a) + x)[4..] && y == (Canonical(b) + y)[4..];
      case Bool(v) =>
        assert (Canonical(a) + x)[0] == Canonical(a)[0] && (Canonical(b) + y)[0] == Canonical(b)[0];
        assert Canonical(a) == Canonical(b);
        assert x == (Canonical(a) + x)[|Canonical(a)|..] && y == (Canonical(b) + y)[|Canonical(a)|..];
      case Number(token) =>
        NumbersAreDelimited(token, b.token, x, y);
      case Text(s) =>
        QuoteIsInjective(s, b.s, x, y);
      case Array(items) =>
        ArraysAreInjective(a, b, x, y);
      case Object(members) =>
        ObjectsAreInjective(a, b, x, y);
    }
  }

  lemma {:induction false} ArraysAreInjective(a: Value, b: Value, x: string, y: string)
    requires a.Array? && b.Array? && Valid(a) && Valid(b)
    requires Canonical(a) + x == Canonical(b) + y
    ensures Equivalent(a, b) && x == y
    decreases a, 0, |a.items| + 2
  {
    CanonicalArray(a.items);
    CanonicalArray(b.items);
    var u, w := Texts(a.items), Texts(b.items);
    hide Canonical, Body, Texts;
    Associates("[", Body(u, ']'), x);
    Associates("[", Body(w, ']'), y);
    CutFirst("[", "[", Body(u, ']') + x, Body(w, ']') + y);
    BodyStarts(a.items, b.items, x, y);
    if |a.items| > 0 {
      ItemsAreInjective(a, b, 0, x, y);
    }
  }

  /** An empty array is not the start of a non-empty one. */
  lemma BodyStarts(items: seq<Value>, others: seq<Value>, x: string, y: string)
    requires Body(Texts(items), ']') + x == Body(Texts(others), ']') + y
    requires forall i :: 0 <= i < |items| ==> Valid(items[i])
    requires forall i :: 0 <= i < |others| ==> Valid(others[i])
    ensures |items| == 0 <==> |others| == 0
    ensures |items| == 0 ==> x == y
    ensures |items| > 0 ==> ItemsFrom(items, 0, x) == ItemsFrom(others, 0, y)
  {
    BodyIs(items, x);
    BodyIs(others, y);
    hide Canonical, Body, Texts, Valid, ItemsFrom;
    if |items| == 0 {
      CutFirst("]", "]", x, y);
    }
  }

  lemma BodyIs(items: seq<Value>, x: string)
    requires forall i :: 0 <= i < |items| ==> Valid(items[i])
    ensures |items| == 0 ==> Body(Texts(items), ']') + x == "]" + x
    ensures |items| > 0 ==> Body(Texts(items), ']') + x == ItemsFrom(items, 0, x)
    ensures (Body(Texts(items), ']') + x)[0] == ']' <==> |items| == 0
  {
    hide Canonical, Valid, Tail;
    if |items| > 0 {
      FirstCharacter(items[0], Tail(Texts(items)[1..], ']') + x);
    }
  }

  /** The text from item k on. */
  function ItemsFrom(items: seq<Value>, k: nat, x: string): string
    requires k < |items|
  {
    Canonical(items[k]) + (Tail(Texts(items)[k + 1..], ']') + x)
  }

  lemma TailStarts(texts: seq<string>, close: char, x: string)
    ensures var t := Tail(texts, close) + x;
      t == if |texts| == 0 then [close] + x else "," + (texts[0] + (Tail(texts[1..], close) + x))
  {
    if |texts| > 0 {
      Associates("," + texts[0], Tail(texts[1..], close), x);
      Associates(",", texts[0], Tail(texts[1..], close) + x);
    }
  }

  lemma {:induction false} ItemsAreInjective(a: Value, b: Value, k: nat, x: string, y: string)
    requires a.Array? && b.Array? && Valid(a) && Valid(b) && k < |a.items| && k < |b.items|
    requires ItemsFrom(a.items, k, x) == ItemsFrom(b.items, k, y)
    ensures |a.items| == |b.items| && x == y
    ensures forall i :: k <= i < |a.items| ==> Equivalent(a.items[i], b.items[i])
    decreases a, 0, |a.items| - k
  {
    hide Canonical, Equivalent, Tail, Valid;
    var u, w := Texts(a.items)[k + 1..], Texts(b.items)[k + 1..];
    TailStarts(u, ']', x);
    TailStarts(w, ']', y);
    ItemIsValid(a, k);
    ItemIsValid(b, k);
    CanonicalIsInjective(a.items[k], b.items[k], Tail(u, ']') + x, Tail(w, ']') + y);
    if |u| == 0 {
      CutFirst("]", "]", x, y);
    } else {
      assert u[1..] == Texts(a.items)[k + 2..] && w[1..] == Texts(b.items)[k + 2..];
      CutFirst(",", ",", u[0] + (Tail(u[1..], ']') + x), w[0] + (Tail(w[1..], ']') + y));
      ItemsAreInjective(a, b, k + 1, x, y);
    }
  }

  lemma ItemIsValid(v: Value, k: nat)
    requires v.Array? && Valid(v) && k < |v.items|
    ensures Valid(v.items[k])
  {
  }

  // ---------------------------------------------------------------- objects

  ghost predicate PartOf(v: Value, i: nat, p: Part)
    requires v.Object?
  {
    i < |v.members| && p == Part(v.members[i].key, Canonical(v.members[i].value))
  }

  /** Two parts come from members with one key and equivalent values. */
  ghost predicate SamePart(a: Value, b: Value, p: Part, q: Part)
    requires a.Object? && b.Object?
  {
    exists i: nat, j: nat :: PartOf(a, i, p) && PartOf(b, j, q) && p.key == q.key && Equivalent(a.members[i].value, b.members[j].value)
  }

  ghost predicate HasPart(v: Value, p: Part)
    requires v.Object?
  {
    exists i: nat :: PartOf(v, i, p)
  }

  ghost predicate AreParts(v: Value, parts: seq<Part>)
    requires v.Object?
  {
    forall k :: 0 <= k < |parts| ==> HasPart(v, parts[k])
  }

  /** The text behind the first entry, and from it on. */
  function AfterEntry(parts: seq<Part>, x: string): string
    requires |parts| > 0
  {
    Tail(Entries(parts[1..]), '}') + x
  }

  function EntriesFrom(parts: seq<Part>, x: string): string
    requires |parts| > 0
  {
    Entry(parts[0]) + AfterEntry(parts, x)
  }

  lemma NextEntry(parts: seq<Part>, x: string)
    requires |parts| > 0
    ensures |parts| == 1 ==> AfterEntry(parts, x) == "}" + x
    ensures |parts| > 1 ==> AfterEntry(parts, x) == "," + EntriesFrom(parts[1..], x)
    ensures Ends(AfterEntry(parts, x)) && |AfterEntry(parts, x)| > 0
    ensures AfterEntry(parts, x)[0] == '}' <==> |parts| == 1
  {
    hide Entry, Tail;
    var u := Entries(parts[1..]);
    TailStarts(u, '}', x);
    if |parts| > 1 {
      assert u[1..] == Entries(parts[1..][1..]);
    }
  }

  lemma {:induction false} PartsAreInjective(a: Value, b: Value, ps: seq<Part>, qs: seq<Part>, x: string, y: string)
    requires a.Object? && b.Object? && Valid(a) && Valid(b) && AreParts(a, ps) && AreParts(b, qs)
    requires |ps| > 0 && |qs| > 0 && EntriesFrom(ps, x) == EntriesFrom(qs, y)
    ensures |ps| == |qs| && x == y
    ensures forall k :: 0 <= k < |ps| ==> SamePart(a, b, ps[k], qs[k])
    decreases a, 0, |ps|
  {
    NextEntry(ps, x);
    NextEntry(qs, y);
    hide Valid, SamePart, AreParts, AfterEntry, Entry;
    FirstPartMatches(a, b, ps, qs, AfterEntry(ps, x), AfterEntry(qs, y));
    hide EntriesFrom;
    if |ps| == 1 {
      CutFirst("}", "}", x, y);
    } else {
      PartsTail(a, ps);
      PartsTail(b, qs);
      CutFirst(",", ",", EntriesFrom(ps[1..], x), EntriesFrom(qs[1..], y));
      PartsAreInjective(a, b, ps[1..], qs[1..], x, y);
      forall k | 0 <= k < |ps| ensures SamePart(a, b, ps[k], qs[k]) {
        if k > 0 {
          assert ps[k] == ps[1..][k - 1] && qs[k] == qs[1..][k - 1];
        }
      }
    }
  }

  lemma PartsTail(v: Value, parts: seq<Part>)
    requires v.Object? && |parts| > 0 && AreParts(v, parts)
    ensures AreParts(v, parts[1..])
  {
    hide HasPart;
  }

  lemma {:induction false} FirstPartMatches(a: Value, b: Value, ps: seq<Part>, qs: seq<Part>, x: string, y: string)
    requires a.Object? && b.Object? && Valid(a) && Valid(b) && AreParts(a, ps) && AreParts(b, qs)
    requires |ps| > 0 && |qs| > 0 && Ends(x) && Ends(y)
    requires Entry(ps[0]) + x == Entry(qs[0]) + y
    ensures SamePart(a, b, ps[0], qs[0]) && x == y
    decreases a, 0, 0
  {
    var p, q := ps[0], qs[0];
    var i := Source(a, ps);
    var j := Source(b, qs);
    MemberIsValid(a, i);
    MemberIsValid(b, j);
    hide Canonical, Quote, Valid, Equivalent, AreParts;
    EntriesMatch(p, q, x, y);
    CanonicalIsInjective(a.members[i].value, b.members[j].value, x, y);
    assert PartOf(a, i, p) && PartOf(b, j, q);
  }

  lemma Source(v: Value, parts: seq<Part>) returns (i: nat)
    requires v.Object? && |parts| > 0 && AreParts(v, parts)
    ensures i < |v.members| && PartOf(v, i, parts[0])
  {
    hide Canonical;
    assert HasPart(v, parts[0]);
    i :| PartOf(v, i, parts[0]);
  }

  lemma MemberIsValid(v: Value, i: nat)
    requires v.Object? && Valid(v) && i < |v.members|
    ensures Valid(v.members[i].value) && v.members[i].value < v
  {
  }

  lemma EntriesMatch(p: Part, q: Part, x: string, y: string)
    requires Entry(p) + x == Entry(q) + y
    ensures p.key == q.key && p.text + x == q.text + y
  {
    hide Quote;
    assert Entry(p) + x == Quote(p.key) + (":" + (p.text + x));
    assert Entry(q) + y == Quote(q.key) + (":" + (q.text + y));
    QuoteIsInjective(p.key, q.key, ":" + (p.text + x), ":" + (q.text + y));
    CutFirst(":", ":", p.text + x, q.text + y);
  }

  lemma SortedPartsAreParts(v: Value)
    requires v.Object?
    ensures AreParts(v, SortedParts(v.members)) && |SortedParts(v.members)| == |v.members|
    ensures forall i :: 0 <= i < |v.members| ==> Parts(v.members)[i] in SortedParts(v.members)
  {
    hide Canonical, PartLe, Sorting.Sort, Sorting.Sorted, Sorting.Preorder;
    var parts, sorted := Parts(v.members), SortedParts(v.members);
    PartOrder();
    Sorting.SortSorts(parts, PartLe);
    Sorting.SameElements(sorted, parts);
    SameLength(sorted, parts);
    forall k | 0 <= k < |sorted| ensures HasPart(v, sorted[k]) {
      assert sorted[k] in parts;
      var i: nat :| i < |parts| && parts[i] == sorted[k];
      assert PartOf(v, i, sorted[k]);
    }
    assert forall i :: 0 <= i < |v.members| ==> parts[i] in parts;
  }

  lemma SameLength<T>(a: seq<T>, b: seq<T>)
    requires multiset(a) == multiset(b)
    ensures |a| == |b|
  {
    assert |multiset(a)| == |a| && |multiset(b)| == |b|;
  }

  lemma {:induction false} ObjectsAreInjective(a: Value, b: Value, x: string, y: string)
    requires a.Object? && b.Object? && Valid(a) && Valid(b)
    requires Canonical(a) + x == Canonical(b) + y
    ensures Equivalent(a, b) && x == y
    decreases a, 0, |a.members| + 2
  {
    CanonicalObject(a.members);
    CanonicalObject(b.members);
    var ps, qs := SortedParts(a.members), SortedParts(b.members);
    SortedPartsAreParts(a);
    SortedPartsAreParts(b);
    KeysAreDistinct(a);
    hide Canonical, SortedParts, Parts, AreParts, SamePart, Valid, Equivalent, Body, Entries, DistinctKeys;
    Associates("{", Body(Entries(ps), '}'), x);
    Associates("{", Body(Entries(qs), '}'), y);
    CutFirst("{", "{", Body(Entries(ps), '}') + x, Body(Entries(qs), '}') + y);
    EntriesStart(ps, qs, x, y);
    if |ps| > 0 {
      PartsAreInjective(a, b, ps, qs, x, y);
    }
    SamePartsAreEquivalent(a, b, ps, qs);
  }

  lemma KeysAreDistinct(v: Value)
    requires v.Object? && Valid(v)
    ensures DistinctKeys(v.members)
  {
  }

  lemma EntriesStart(ps: seq<Part>, qs: seq<Part>, x: string, y: string)
    requires Body(Entries(ps), '}') + x == Body(Entries(qs), '}') + y
    ensures |ps| == 0 <==> |qs| == 0
    ensures |ps| == 0 ==> x == y
    ensures |ps| > 0 ==> EntriesFrom(ps, x) == EntriesFrom(qs, y)
  {
    EntriesBody(ps, x);
    EntriesBody(qs, y);
    hide Body, Entries, EntriesFrom;
    if |ps| == 0 {
      CutFirst("}", "}", x, y);
    }
  }

  lemma EntriesBody(ps: seq<Part>, x: string)
    ensures |ps| == 0 ==> Body(Entries(ps), '}') + x == "}" + x
    ensures |ps| > 0 ==> Body(Entries(ps), '}') + x == EntriesFrom(ps, x)
    ensures (Body(Entries(ps), '}') + x)[0] == '}' <==> |ps| == 0
  {
    hide Tail, Quoted;
    if |ps| > 0 {
      assert Entries(ps)[1..] == Entries(ps[1..]);
      assert Entry(ps[0])[0] == '\"';
    }
  }

  lemma SamePartsAreEquivalent(a: Value, b: Value, ps: seq<Part>, qs: seq<Part>)
    requires a.Object? && b.Object? && DistinctKeys(a.members) && |ps| == |qs| == |a.members| == |b.members|
    requires forall k :: 0 <= k < |ps| ==> SamePart(a, b, ps[k], qs[k])
    requires forall i :: 0 <= i < |a.members| ==> Parts(a.members)[i] in ps
    ensures Equivalent(a, b)
  {
    hide Canonical;
    forall i | 0 <= i < |a.members| ensures HasEquivalent(a.members[i], b.members) {
      PartFindsMember(a, b, ps, qs, i);
    }
  }

  lemma PartFindsMember(a: Value, b: Value, ps: seq<Part>, qs: seq<Part>, i: nat)
    requires a.Object? && b.Object? && DistinctKeys(a.members) && |ps| == |qs| && i < |a.members|
    requires forall k :: 0 <= k < |ps| ==> SamePart(a, b, ps[k], qs[k])
    requires Parts(a.members)[i] in ps
    ensures HasEquivalent(a.members[i], b.members)
  {
    hide Canonical, Equivalent;
    var k :| 0 <= k < |ps| && ps[k] == Parts(a.members)[i];
    assert SamePart(a, b, ps[k], qs[k]);
    var i': nat, j: nat :| PartOf(a, i', ps[k]) && PartOf(b, j, qs[k]) && ps[k].key == qs[k].key && Equivalent(a.members[i'].value, b.members[j].value);
    assert a.members[i'].key == a.members[i].key;
    assert i' == i;
  }

  // ---------------------------------------------------------------- equivalent values print alike

  lemma {:induction false} EquivalentPrintAlike(a: Value, b: Value)
    requires Valid(a) && Valid(b) && Equivalent(a, b)
    ensures Canonical(a) == Canonical(b)
    decreases a
  {
    match a
    case Array(items) =>
      forall i | 0 <= i < |items| ensures Canonical(items[i]) == Canonical(b.items[i]) {
        EquivalentPrintAlike(items[i], b.items[i]);
      }
      CanonicalArray(items);
      CanonicalArray(b.items);
      assert Texts(items) == Texts(b.items);
    case Object(members) =>
      forall i | 0 <= i < |members| ensures Parts(members)[i] in Parts(b.members) {
        assert HasEquivalent(members[i], b.members);
        var j :| 0 <= j < |b.members| && b.members[j].key == members[i].key && Equivalent(members[i].value, b.members[j].value);
        EquivalentPrintAlike(members[i].value, b.members[j].value);
        assert Parts(b.members)[j] == Parts(members)[i];
      }
      CanonicalObject(members);
      CanonicalObject(b.members);
      SamePartsSortAlike(members, b.members);
    case _ =>
  }

  lemma SamePartsSortAlike(m: seq<Member>, n: seq<Member>)
    requires DistinctKeys(m) && DistinctKeys(n) && |m| == |n|
    requires forall i :: 0 <= i < |m| ==> Parts(m)[i] in Parts(n)
    ensures SortedParts(m) == SortedParts(n)
  {
    hide Canonical, StringLe;
    var ps, qs := Parts(m), Parts(n);
    SameMultiset(ps, qs);
    PartOrder();
    forall p, q | p in ps && q in ps && PartLe(p, q) && PartLe(q, p) ensures p == q {
      StringLeTotal(p.key, q.key);
      var i :| 0 <= i < |ps| && ps[i] == p;
      var j :| 0 <= j < |ps| && ps[j] == q;
    }
    Sorting.SortIgnoresOrder(ps, qs, PartLe);
  }

  ghost predicate Distinct(ps: seq<Part>) {
    forall i, j :: 0 <= i < j < |ps| ==> ps[i].key != ps[j].key
  }

  lemma {:induction false} SameMultiset(ps: seq<Part>, qs: seq<Part>)
    requires Distinct(ps) && Distinct(qs) && |ps| == |qs|
    requires forall i :: 0 <= i < |ps| ==> ps[i] in qs
    ensures multiset(ps) == multiset(qs)
  {
    if |ps| > 0 {
      var n := |ps| - 1;
      var k :| 0 <= k < |qs| && qs[k] == ps[n];
      var rest := qs[..k] + qs[k + 1..];
      forall i | 0 <= i < n ensures ps[..n][i] in rest {
        var j :| 0 <= j < |qs| && qs[j] == ps[i];
        FoundInRest(qs, k, j);
      }
      hide Distinct;
      RestIsDistinct(qs, k);
      PrefixIsDistinct(ps, n);
      SameMultiset(ps[..n], rest);
      TakeOut(qs, k);
      assert ps == ps[..n] + [ps[n]];
    }
  }

  lemma TakeOut(qs: seq<Part>, k: nat)
    requires k < |qs|
    ensures multiset(qs) == multiset(qs[..k] + qs[k + 1..]) + multiset{qs[k]}
  {
    assert qs == qs[..k] + [qs[k]] + qs[k + 1..];
  }

  lemma PrefixIsDistinct(ps: seq<Part>, n: nat)
    requires n <= |ps| && Distinct(ps)
    ensures Distinct(ps[..n])
  {
  }

  lemma FoundInRest(qs: seq<Part>, k: nat, j: nat)
    requires k < |qs| && j < |qs| && j != k
    ensures qs[j] in qs[..k] + qs[k + 1..]
  {
    var rest := qs[..k] + qs[k + 1..];
    if j < k {
      assert rest[j] == qs[j];
    } else {
      assert rest[j - 1] == qs[j];
    }
  }

  lemma RestIsDistinct(qs: seq<Part>, k: nat)
    requires k < |qs| && Distinct(qs)
    ensures Distinct(qs[..k] + qs[k + 1..])
  {
    var rest := qs[..k] + qs[k + 1..];
    forall i, j | 0 <= i < j < |rest| ensures rest[i].key != rest[j].key {
      assert rest[i] == qs[if i < k then i else i + 1];
      assert rest[j] == qs[if j < k then j else j + 1];
    }
  }

  /** Canonical texts are equal exactly when the values are equal up to member order. */
  lemma CanonicalDecidesEquality(a: Value, b: Value)
    requires Valid(a) && Valid(b)
    ensures Canonical(a) == Canonical(b) <==> Equivalent(a, b)
  {
    hide Canonical, Valid, Equivalent;
    if Canonical(a) == Canonical(b) {
      CanonicalIsInjective(a, b, "", "");
    }
    if Equivalent(a, b) {
      EquivalentPrintAlike(a, b);
    }
  }

  // ---------------------------------------------------------------- the writer

  function KeysOf(parts: seq<Part>): seq<string> {
    seq(|parts|, i requires 0 <= i < |parts| => parts[i].key)
  }

  lemma {:induction false} InsertKeys(parts: seq<Part>, p: Part)
    ensures KeysOf(Sorting.Insert(parts, p, PartLe)) == Sorting.Insert(KeysOf(parts), p.key, StringLe)
  {
    hide StringLe;
    if |parts| > 0 {
      var init := parts[..|parts| - 1];
      assert KeysOf(parts)[..|parts| - 1] == KeysOf(init);
      InsertKeys(init, p);
    }
  }

  lemma {:induction false} SortKeys(parts: seq<Part>)
    ensures KeysOf(Sorting.Sort(parts, PartLe)) == Sorting.Sort(KeysOf(parts), StringLe)
  {
    hide StringLe, PartLe, Sorting.Insert;
    if |parts| > 0 {
      var init := parts[..|parts| - 1];
      assert KeysOf(parts)[..|parts| - 1] == KeysOf(init);
      SortKeys(init);
      InsertKeys(Sorting.Sort(init, PartLe), parts[|parts| - 1]);
    }
  }

  function Keys(members: seq<Member>): seq<string> {
    seq(|members|, i requires 0 <= i < |members| => members[i].key)
  }

  /** `&map[key]`: where the value of a key is. */
  function Find(members: seq<Member>, key: string): (i: nat)
    requires exists i :: 0 <= i < |members| && members[i].key == key
    ensures i < |members| && members[i].key == key
  {
    if members[|members| - 1].key == key then |members| - 1 else Find(members[..|members| - 1], key)
  }

  /** The i-th sorted part belongs to the i-th sorted key. */
  lemma SortedKey(v: Value, i: nat)
    requires v.Object? && Valid(v) && i < |v.members|
    ensures var keys, sorted := Sorting.Sort(Keys(v.members), StringLe), SortedParts(v.members);
      && |keys| == |sorted| == |v.members| && keys[i] == sorted[i].key
      && (exists j :: 0 <= j < |v.members| && v.members[j].key == keys[i])
      && sorted[i].text == Canonical(v.members[Find(v.members, keys[i])].value)
  {
    hide Canonical, StringLe, Sorting.Sort;
    var sorted := SortedParts(v.members);
    SortedPartsAreParts(v);
    SortKeys(Parts(v.members));
    assert KeysOf(Parts(v.members)) == Keys(v.members);
    assert KeysOf(sorted)[i] == sorted[i].key;
    assert HasPart(v, sorted[i]);
    var j: nat :| PartOf(v, j, sorted[i]);
    assert Find(v.members, sorted[i].key) == j;
  }

  lemma SortedKeyCount(v: Value)
    requires v.Object?
    ensures |Sorting.Sort(Keys(v.members), StringLe)| == |SortedParts(v.members)| == |v.members|
  {
    hide Canonical, StringLe;
    SortedPartsAreParts(v);
    SortKeys(Parts(v.members));
    assert KeysOf(Parts(v.members)) == Keys(v.members);
    assert |KeysOf(SortedParts(v.members))| == |SortedParts(v.members)|;
  }

  /** What is still to be written of a list whose first `i` texts are out. */
  function Rest(texts: seq<string>, i: nat, close: char): string
    requires i <= |texts|
  {
    if i == 0 then Body(texts, close) else Tail(texts[i..], close)
  }

  lemma RestNext(texts: seq<string>, i: nat, close: char)
    requires i < |texts|
    ensures Rest(texts, i, close) == (if i > 0 then "," else "") + texts[i] + Rest(texts, i + 1, close)
  {
    assert texts[i..][1..] == texts[i + 1..];
    if i == 0 {
      assert "" + texts[0] == texts[0];
    }
  }

  lemma RestEnds(texts: seq<string>, close: char)
    ensures Rest(texts, |texts|, close) == [close]
  {
  }

  /** `canonical_json`: appends the text of a value. */
  method Write(v: Value, out: string) returns (r: string)
    requires Valid(v)
    ensures r == out + Canonical(v)
    decreases v, 1
  {
    match v {
      case Null => r := out + "null";
      case Bool(b) => r := out + (if b then "true" else "false");
      case Number(token) => r := out + token;
      case Text(s) => r := out + Quote(s);
      case Array(items) => r := WriteArray(v, out);
      case Object(members) => r := WriteObject(v, out);
    }
  }

  method WriteArray(v: Value, out: string) returns (r: string)
    requires v.Array? && Valid(v)
    ensures r == out + Canonical(v)
    decreases v, 0
  {
    hide Canonical, Rest;
    ghost var goal, texts := out + Canonical(v), Texts(v.items);
    CanonicalArray(v.items);
    RestStarts(texts, ']');
    Associates(out, "[", Rest(texts, 0, ']'));
    r := out + "[";
    for i := 0 to |v.items|
      invariant r + Rest(texts, i, ']') == goal
    {
      RestNext(texts, i, ']');
      ItemIsValid(v, i);
      ghost var before := r;
      if i > 0 {
        r := r + ",";
      }
      r := Write(v.items[i], r);
      Regroup(before, if i > 0 then "," else "", texts[i], Rest(texts, i + 1, ']'), r);
    }
    RestEnds(texts, ']');
    r := r + "]";
  }

  lemma RestStarts(texts: seq<string>, close: char)
    ensures Rest(texts, 0, close) == Body(texts, close)
  {
  }

  lemma Regroup(before: string, comma: string, text: string, rest: string, after: string)
    requires after == before + comma + text || (comma == "" && after == before + text)
    ensures after + rest == before + (comma + text + rest)
  {
  }

  method WriteObject(v: Value, out: string) returns (r: string)
    requires v.Object? && Valid(v)
    ensures r == out + Canonical(v)
    decreases v, 0
  {
    hide Canonical, Rest, Quote, Valid;
    ghost var goal, texts := out + Canonical(v), Entries(SortedParts(v.members));
    CanonicalObject(v.members);
    SortedKeyCount(v);
    RestStarts(texts, '}');
    Associates(out, "{", Rest(texts, 0, '}'));
    r := out + "{";
    var keys := Sorting.Sort(Keys(v.members), StringLe);
    for i := 0 to |keys|
      invariant r + Rest(texts, i, '}') == goal
    {
      RestNext(texts, i, '}');
      SortedKey(v, i);
      var at := Find(v.members, keys[i]);
      MemberIsValid(v, at);
      ghost var before := r;
      if i > 0 {
        r := r + ",";
      }
      ghost var comma := r;
      r := r + Quote(keys[i]);
      r := r + ":";
      Associates(comma, Quote(keys[i]), ":");
      ghost var value := Canonical(v.members[at].value);
      Associates(comma, Quote(keys[i]) + ":", value);
      r := Write(v.members[at].value, r);
      Regroup(before, if i > 0 then "," else "", texts[i], Rest(texts, i + 1, '}'), r);
    }
    RestEnds(texts, '}');
    r := r + "}";
  }

  // ---------------------------------------------------------------- the package hash

  const GENERATED_AT := "evidence_generated_at"

  function Without(members: seq<Member>, key: string): seq<Member> {
    if |members| == 0 then []
    else
      var init, last := Without(members[..|members| - 1], key), members[|members| - 1];
      if last.key == key then init else init + [last]
  }

  function Stable(package: Value): Value {
    match package
    case Object(members) => Object(Without(members, GENERATED_AT))
    case _ => package
  }

  /** The text that is hashed. */
  function Preimage(package: Value): string {
    Canonical(Stable(package))
  }

  lemma {:induction false} WithoutHas(members: seq<Member>, key: string, m: Member)
    ensures m in Without(members, key) <==> m in members && m.key != key
  {
    if |members| > 0 {
      WithoutHas(members[..|members| - 1], key, m);
      assert members == members[..|members| - 1] + [members[|members| - 1]];
    }
  }

  lemma {:induction false} WithoutIsDistinct(members: seq<Member>, key: string)
    requires DistinctKeys(members)
    ensures DistinctKeys(Without(members, key))
  {
    if |members| > 0 {
      var init, last := members[..|members| - 1], members[|members| - 1];
      WithoutIsDistinct(init, key);
      var rest := Without(init, key);
      forall i | 0 <= i < |rest| ensures rest[i].key != last.key {
        WithoutHas(init, key, rest[i]);
        var j :| 0 <= j < |init| && init[j] == rest[i];
      }
    }
  }

  lemma StableIsValid(package: Value)
    requires Valid(package)
    ensures Valid(Stable(package))
  {
    if package.Object? {
      var rest := Without(package.members, GENERATED_AT);
      WithoutIsDistinct(package.members, GENERATED_AT);
      forall i | 0 <= i < |rest| ensures Valid(rest[i].value) {
        WithoutHas(package.members, GENERATED_AT, rest[i]);
        var j :| 0 <= j < |package.members| && package.members[j] == rest[i];
      }
    }
  }

  /** Every member of `m` but the generation time has an equivalent one in `n`. */
  ghost predicate ContainedIn(m: seq<Member>, n: seq<Member>) {
    forall i :: 0 <= i < |m| && m[i].key != "evidence_generated_at" ==> HasEquivalent(m[i], n)
  }

  /** Two packages differ at most in the top-level generation time and in member order. */
  ghost predicate SameEvidence(a: Value, b: Value) {
    if a.Object? && b.Object?
    then ContainedIn(a.members, b.members) && |Without(a.members, "evidence_generated_at")| == |Without(b.members, "evidence_generated_at")|
    else Equivalent(a, b)
  }

  lemma StableEquivalence(a: Value, b: Value)
    requires a.Object? && b.Object?
    ensures Equivalent(Stable(a), Stable(b)) <==> SameEvidence(a, b)
  {
    hide Without;
    var m, n := Without(a.members, GENERATED_AT), Without(b.members, GENERATED_AT);
    if Equivalent(Stable(a), Stable(b)) {
      forall i | 0 <= i < |a.members| && a.members[i].key != GENERATED_AT ensures HasEquivalent(a.members[i], b.members) {
        WithoutHas(a.members, GENERATED_AT, a.members[i]);
        var k :| 0 <= k < |m| && m[k] == a.members[i];
        assert HasEquivalent(m[k], n);
        var l :| 0 <= l < |n| && n[l].key == m[k].key && Equivalent(m[k].value, n[l].value);
        WithoutHas(b.members, GENERATED_AT, n[l]);
        var j :| 0 <= j < |b.members| && b.members[j] == n[l];
      }
    }
    if SameEvidence(a, b) {
      forall k | 0 <= k < |m| ensures HasEquivalent(m[k], n) {
        WithoutHas(a.members, GENERATED_AT, m[k]);
        var i :| 0 <= i < |a.members| && a.members[i] == m[k];
        assert HasEquivalent(a.members[i], b.members);
        var j :| 0 <= j < |b.members| && b.members[j].key == a.members[i].key && Equivalent(a.members[i].value, b.members[j].value);
        WithoutHas(b.members, GENERATED_AT, b.members[j]);
        var l :| 0 <= l < |n| && n[l] == b.members[j];
      }
    }
  }

  /** Two packages are hashed alike exactly when they hold the same evidence. */
  lemma PreimageIsEvidence(a: Value, b: Value)
    requires Valid(a) && Valid(b)
    ensures Preimage(a) == Preimage(b) <==> SameEvidence(a, b)
  {
    hide Canonical, Valid, Without;
    StableIsValid(a);
    StableIsValid(b);
    CanonicalDecidesEquality(Stable(a), Stable(b));
    if a.Object? && b.Object? {
      StableEquivalence(a, b);
    } else if a.Object? || b.Object? {
      KindsDiffer(a, b);
      KindsDiffer(Stable(a), Stable(b));
    }
  }

  lemma KindsDiffer(a: Value, b: Value)
    requires a.Object? != b.Object?
    ensures !Equivalent(a, b)
  {
  }
}
