/**
  What the canonical text looks like: the text of every value, and that a reader of JSON strings (section 7 of
  RFC 8259) gets back what was quoted.
*/
module JsonText {
  import opened Wrappers
  import opened CanonicalJson
  import Sorting

  // ---------------------------------------------------------------- strings

  function HexValue(c: char): Option<nat> {
    if '0' <= c <= '9' then Some((c - '0') as nat)
    else if 'a' <= c <= 'f' then Some((c - 'a') as nat + 10)
    else if 'A' <= c <= 'F' then Some((c - 'A') as nat + 10)
    else None
  }

  function HexNumber(s: string): Option<nat> {
    if |s| == 0 then Some(0)
    else
      match (HexNumber(s[..|s| - 1]), HexValue(s[|s| - 1]))
      case (Some(high), Some(low)) => Some(16 * high + low)
      case _ => None
  }

  /** The character a two-character escape stands for. */
  function ShortEscape(c: char): Option<char> {
    match c
    case '\"' => Some('\"')
    case '\\' => Some('\\')
    case '/' => Some('/')
    case 'b' => Some(8 as char)
    case 'f' => Some(12 as char)
    case 'n' => Some(10 as char)
    case 'r' => Some(13 as char)
    case 't' => Some(9 as char)
    case _ => None
  }

  /** Reads one character of a string and leaves the rest; surrogate escapes are not read. */
  function ReadChar(t: string): Option<(char, string)> {
    if |t| == 0 || t[0] == '\"' || t[0] < ' ' then None
    else if t[0] != '\\' then Some((t[0], t[1..]))
    else if |t| >= 6 && t[1] == 'u' then
      match HexNumber(t[2..6])
      case Some(n) => if n < 0xD800 then Some((n as char, t[6..])) else None
      case None => None
    else if |t| >= 2 && ShortEscape(t[1]).Some? then Some((ShortEscape(t[1]).value, t[2..]))
    else None
  }

  /** Reads up to the closing quote. */
  function ReadString(t: string): Option<(string, string)>
    decreases |t|
  {
    if |t| > 0 && t[0] == '\"' then Some(("", t[1..]))
    else
      match ReadChar(t)
      case None => None
      case Some(read) =>
        if |read.1| >= |t| then None
        else
          match ReadString(read.1)
          case None => None
          case Some(rest) => Some(([read.0] + rest.0, rest.1))
  }

  /** What is escaped, and how: only what has to be, the short way where there is one. */
  lemma EscapesAre(c: char)
    ensures |Escape(c)| == 1 <==> c != '\"' && c != '\\' && c >= ' '
    ensures |Escape(c)| == 1 ==> Escape(c) == [c]
    ensures |Escape(c)| == 2 <==> c in {'\"', '\\', 8 as char, 9 as char, 10 as char, 12 as char, 13 as char}
    ensures |Escape(c)| in {1, 2, 6}
  {
  }

  lemma HexReads(d: nat)
    requires d < 16
    ensures HexValue(Hex(d)) == Some(d) && !('A' <= Hex(d) <= 'F')
  {
  }

  lemma FourDigits(h: char, l: char)
    requires HexValue(h).Some? && HexValue(l).Some?
    ensures HexNumber("00" + [h, l]) == Some(16 * HexValue(h).value + HexValue(l).value)
  {
    hide HexValue;
    assert HexValue('0') == Some(0) by { ZeroReads(); }
    var s := "00" + [h, l];
    assert s[..3] == "00" + [h] && s[..3][..2] == "00" && "00"[..1] == "0" && "0"[..0] == "";
    assert HexNumber("") == Some(0);
    assert HexNumber("0") == Some(0);
    assert HexNumber("00") == Some(0);
    assert HexNumber(s[..3]) == Some(HexValue(h).value);
  }

  lemma ZeroReads()
    ensures HexValue('0') == Some(0)
  {
  }

  /** An escaped character reads back as itself. */
  lemma EscapeReads(c: char, x: string)
    ensures ReadChar(Escape(c) + x) == Some((c, x))
    ensures |Escape(c)| > 0 && Escape(c)[0] != '\"'
  {
    var t := Escape(c) + x;
    EscapesAre(c);
    if |Escape(c)| == 6 {
      var n := c as int;
      HexReads(n / 16);
      HexReads(n % 16);
      FourDigits(Hex(n / 16), Hex(n % 16));
      assert t[2..6] == "00" + [Hex(n / 16), Hex(n % 16)] && t[6..] == x;
    } else if |Escape(c)| == 2 {
      assert t[0] == '\\' && t[1] == Escape(c)[1] && t[2..] == x;
    } else {
      assert t[1..] == x;
    }
  }

  /** A quoted string reads back as itself, and the reader stops right behind it. */
  lemma {:induction false} QuotedReads(s: string, x: string)
    ensures ReadString(Quoted(s) + x) == Some((s, x))
  {
    QuotedStarts(s, x);
    if |s| == 0 {
      assert (Quoted(s) + x)[1..] == x;
    } else {
      var rest := Quoted(s[1..]) + x;
      QuotedReads(s[1..], x);
      EscapeReads(s[0], rest);
      hide Escape, ReadChar;
      assert [s[0]] + s[1..] == s;
    }
  }

  // ---------------------------------------------------------------- values

  /** Number tokens are the nonempty texts of these characters that begin with a digit or a minus sign. */
  lemma NumberTokens(token: string)
    ensures IsNumber(token) <==>
      && |token| > 0 && token[0] in "-0123456789"
      && forall i :: 0 <= i < |token| ==> token[i] in "0123456789+-.eE"
  {
    forall c: char ensures StartsNumber(c) <==> c in "-0123456789" {
      CharsOfNumbers(c);
    }
    forall c: char ensures IsNumberChar(c) <==> c in "0123456789+-.eE" {
      CharsOfNumbers(c);
    }
    hide StartsNumber, IsNumberChar;
  }

  lemma CharsOfNumbers(c: char)
    ensures StartsNumber(c) <==> c in "-0123456789"
    ensures IsNumberChar(c) <==> c in "0123456789+-.eE"
  {
    var starts, all := "-0123456789", "0123456789+-.eE";
    if '0' <= c <= '9' {
      assert starts[(c - '0') as int + 1] == c && all[(c - '0') as int] == c;
    }
    assert starts[0] == '-' && all[10] == '+' && all[11] == '-' && all[12] == '.' && all[13] == 'e' && all[14] == 'E';
  }

  /** Texts with a comma between neighbours. */
  function Joined(texts: seq<string>): string {
    if |texts| == 0 then ""
    else if |texts| == 1 then texts[0]
    else Joined(texts[..|texts| - 1]) + "," + texts[|texts| - 1]
  }

  /** `a` comes before `b`: it is a proper prefix, or smaller where they first differ. */
  ghost predicate KeyLess(a: string, b: string) {
    exists k :: 0 <= k <= |a| && k < |b| && a[..k] == b[..k] && (k == |a| || a[k] < b[k])
  }

  lemma {:induction false} StringOrder(a: string, b: string)
    requires StringLe(a, b) && a != b
    ensures KeyLess(a, b)
  {
    if |a| == 0 {
      assert a[..0] == b[..0];
    } else if a[0] != b[0] {
      assert a[..0] == b[..0];
    } else {
      assert a == [a[0]] + a[1..] && b == [b[0]] + b[1..];
      StringOrder(a[1..], b[1..]);
      var k :| 0 <= k <= |a[1..]| && k < |b[1..]| && a[1..][..k] == b[1..][..k] && (k == |a[1..]| || a[1..][k] < b[1..][k]);
      assert a[..k + 1] == [a[0]] + a[1..][..k] && b[..k + 1] == [b[0]] + b[1..][..k];
    }
  }

  lemma {:induction false} TailIsJoined(first: string, texts: seq<string>, close: char)
    ensures first + Tail(texts, close) == Joined([first] + texts) + [close]
  {
    var all := [first] + texts;
    if |texts| == 0 {
      assert all == [first];
    } else {
      var init, last := texts[..|texts| - 1], texts[|texts| - 1];
      TailOfMore(init, last, close);
      TailWithout(init, first, close);
      assert all[..|all| - 1] == [first] + init && all[|all| - 1] == last;
      TailIsJoined(first, init, close);
      CutLast(first, init, last, close);
      assert texts == init + [last];
    }
  }

  /** The part of a tail before the closing bracket. */
  function Items(texts: seq<string>): string {
    if |texts| == 0 then "" else "," + texts[0] + Items(texts[1..])
  }

  lemma {:induction false} TailOfMore(init: seq<string>, last: string, close: char)
    ensures Tail(init + [last], close) == Items(init) + ("," + last) + [close]
    ensures Tail(init, close) == Items(init) + [close]
  {
    var all := init + [last];
    if |init| == 0 {
      assert all[1..] == [] && Tail(all[1..], close) == [close];
      assert "" + ("," + last) == "," + last;
    } else {
      assert all[1..] == init[1..] + [last];
      TailOfMore(init[1..], last, close);
      Associates("," + init[0], Items(init[1..]), "," + last);
      Associates("," + init[0], Items(init[1..]) + ("," + last), [close]);
      Associates("," + init[0], Items(init[1..]), [close]);
    }
  }

  lemma TailWithout(init: seq<string>, first: string, close: char)
    ensures first + Tail(init, close) == first + Items(init) + [close]
  {
    TailOfMore(init, "", close);
    Associates(first, Items(init), [close]);
  }

  lemma CutLast(first: string, init: seq<string>, last: string, close: char)
    requires first + Tail(init, close) == Joined([first] + init) + [close]
    ensures first + Tail(init + [last], close) == Joined([first] + init) + "," + last + [close]
  {
    TailWithout(init, first, close);
    TailOfMore(init, last, close);
    hide Tail, Joined, Items;
    var a, b := first + Items(init), Joined([first] + init);
    assert (a + [close])[..|a|] == a && (b + [close])[..|b|] == b;
    assert a == b;
    Associates(first, Items(init), "," + last);
    Associates(first, Items(init) + ("," + last), [close]);
    Associates(b, ",", last);
  }

  lemma BodyIsJoined(texts: seq<string>, close: char)
    ensures Body(texts, close) == Joined(texts) + [close]
  {
    if |texts| == 0 {
      assert "" + [close] == [close];
    } else {
      TailIsJoined(texts[0], texts[1..], close);
      assert texts == [texts[0]] + texts[1..];
    }
  }

  /** The text of every leaf. */
  lemma LeafTexts(b: bool, token: string, s: string)
    ensures Canonical(Null) == "null"
    ensures Canonical(Bool(b)) == if b then "true" else "false"
    ensures Canonical(Number(token)) == token
    ensures Canonical(Text(s)) == "\"" + Quoted(s)
  {
  }

  /** An array is its items' texts with commas between them, in brackets. */
  lemma ArrayText(items: seq<Value>)
    ensures Canonical(Array(items)) == "[" + (Joined(Texts(items)) + "]")
    ensures |Texts(items)| == |items| && forall i :: 0 <= i < |items| ==> Texts(items)[i] == Canonical(items[i])
  {
    CanonicalArray(items);
    BodyIsJoined(Texts(items), ']');
  }

  /** The entry of the member with this key. */
  ghost predicate IsEntry(members: seq<Member>, key: string, entry: string) {
    exists j :: 0 <= j < |members| && members[j].key == key && entry == "\"" + Quoted(key) + ":" + Canonical(members[j].value)
  }

  /** An object is one entry per member, quoted key, colon and value, with commas between them, in braces; the keys
      are those of the members and ascend by code point. */
  lemma ObjectText(v: Value) returns (keys: seq<string>, entries: seq<string>)
    requires v.Object? && Valid(v)
    ensures Canonical(v) == "{" + (Joined(entries) + "}")
    ensures |keys| == |entries| == |v.members| && multiset(keys) == multiset(Keys(v.members))
    ensures forall i, j :: 0 <= i < j < |keys| ==> KeyLess(keys[i], keys[j])
    ensures forall i :: 0 <= i < |keys| ==> IsEntry(v.members, keys[i], entries[i])
  {
    var parts := SortedParts(v.members);
    keys, entries := Sorting.Sort(Keys(v.members), StringLe), Entries(parts);
    CanonicalObject(v.members);
    BodyIsJoined(entries, '}');
    SortedKeyCount(v);
    KeysAscend(v);
    hide Canonical, Quoted, Joined, Body, SortedParts, Sorting.Sort, StringLe, Keys, KeyLess;
    forall i | 0 <= i < |keys| ensures IsEntry(v.members, keys[i], entries[i]) {
      SortedKey(v, i);
      var j := Find(v.members, keys[i]);
      assert entries[i] == Entry(parts[i]);
    }
  }

  lemma KeysAscend(v: Value)
    requires v.Object? && Valid(v)
    ensures var keys := Sorting.Sort(Keys(v.members), StringLe);
      multiset(keys) == multiset(Keys(v.members)) && forall i, j :: 0 <= i < j < |keys| ==> KeyLess(keys[i], keys[j])
  {
    var given, keys := Keys(v.members), Sorting.Sort(Keys(v.members), StringLe);
    KeyOrder();
    Sorting.SortSorts(given, StringLe);
    hide StringLe, KeyLess, Sorting.Sort;
    forall i, j | 0 <= i < j < |keys| ensures KeyLess(keys[i], keys[j]) {
      SortedKeysDiffer(given, keys, i, j);
      StringOrder(keys[i], keys[j]);
    }
  }

  lemma KeyOrder()
    ensures Sorting.Preorder(StringLe)
  {
    hide StringLe;
    forall a, b ensures StringLe(a, b) || StringLe(b, a) {
      StringLeTotal(a, b);
    }
    forall a, b, c | StringLe(a, b) && StringLe(b, c) ensures StringLe(a, c) {
      StringLeTransitive(a, b, c);
    }
  }

  lemma SortedKeysDiffer(given: seq<string>, keys: seq<string>, i: nat, j: nat)
    requires multiset(given) == multiset(keys) && i < j < |keys|
    requires forall a, b :: 0 <= a < b < |given| ==> given[a] != given[b]
    ensures keys[i] != keys[j]
  {
    OnceEach(given, keys[i]);
    TwiceWhenEqual(keys, i, j);
  }

  lemma TwiceWhenEqual(keys: seq<string>, i: nat, j: nat)
    requires i < j < |keys|
    ensures keys[i] == keys[j] ==> multiset(keys)[keys[i]] >= 2
  {
    var before, behind := keys[..j], keys[j..];
    assert keys == before + behind;
    assert before[i] == keys[i] && behind[0] == keys[j];
    assert keys[i] in multiset(before) && keys[j] in multiset(behind);
  }

  lemma {:induction false} OnceEach(given: seq<string>, key: string)
    requires forall a, b :: 0 <= a < b < |given| ==> given[a] != given[b]
    ensures multiset(given)[key] <= 1
  {
    if |given| > 0 {
      var init, last := given[..|given| - 1], given[|given| - 1];
      assert given == init + [last];
      OnceEach(init, key);
      assert last !in init;
    }
  }
}
