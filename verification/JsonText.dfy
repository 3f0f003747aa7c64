/**
 * JSON text (sections 2 to 7 of RFC 8259) of normal-form values: how
 * `JSON.stringify` writes strings, and that the text determines the value.
 */
module JsonText {
  import opened Basics

  /** Normal forms: objects are finite maps, so the order of keys is gone. */
  datatype Json =
    | JNull
    | JBool(b: bool)
    | JNumber(text: string)
    | JString(s: string)
    | JArray(elems: seq<Json>)
    | JObject(members: map<string, Json>)

  // ---------------------------------------------------------------------- characters

  /** Strings are well-formed Unicode; the escapes are those of JSON.stringify. */
  function Escape(c: char): (text: string) {
    var n := c as int;
    if c == '\"' then "\\\""
    else if c == '\\' then "\\\\"
    else if n == 8 then "\\b"
    else if n == 9 then "\\t"
    else if n == 10 then "\\n"
    else if n == 12 then "\\f"
    else if n == 13 then "\\r"
    else if n < 32 then "\\u00" + [HEX_DIGITS[n / 16], HEX_DIGITS[n % 16]]
    else [c]
  }

  function EscapeAll(s: string): string {
    if s == "" then "" else Escape(s[0]) + EscapeAll(s[1..])
  }

  function Quote(s: string): string {
    "\"" + EscapeAll(s) + "\""
  }

  lemma HexDigitsDiffer(i: nat, j: nat)
    requires i < 16 && j < 16 && HEX_DIGITS[i] == HEX_DIGITS[j]
    ensures i == j
  {
  }

  /** How long the code of a character is shows in its first two characters. */
  lemma EscapeShape(c: char)
    ensures |Escape(c)| == 1 <==> Escape(c)[0] != '\\'
    ensures |Escape(c)| == 1 || (|Escape(c)| == 2 && Escape(c)[1] != 'u') || (|Escape(c)| == 6 && Escape(c)[1] == 'u')
  {
  }

  lemma EscapeIsInjective(c: char, d: char)
    requires Escape(c) == Escape(d)
    ensures c == d
  {
    EscapeShape(c);
    if |Escape(c)| == 6 {
      var m, n := c as int, d as int;
      assert Escape(c)[4] == HEX_DIGITS[m / 16] && Escape(c)[5] == HEX_DIGITS[m % 16];
      assert Escape(d)[4] == HEX_DIGITS[n / 16] && Escape(d)[5] == HEX_DIGITS[n % 16];
      HexDigitsDiffer(m / 16, n / 16);
      HexDigitsDiffer(m % 16, n % 16);
    }
  }

  /** The code of a character is never a proper prefix of the code of another. */
  lemma EscapeIsPrefixFree(c: char, d: char, x: string, y: string)
    requires Escape(c) + x == Escape(d) + y
    ensures c == d && x == y
  {
    hide Escape;
    EscapeShape(c);
    EscapeShape(d);
    var cx, dy := Escape(c) + x, Escape(d) + y;
    assert cx[0] == Escape(c)[0] && dy[0] == Escape(d)[0];
    assert |Escape(c)| > 1 && |Escape(d)| > 1 ==> cx[1] == Escape(c)[1] && dy[1] == Escape(d)[1];
    SplitAt(Escape(c), x, Escape(d), y);
    EscapeIsInjective(c, d);
  }

  lemma EscapeStartsInside(c: char)
    ensures Escape(c) != "" && Escape(c)[0] != '\"'
  {
  }

  lemma Associate(a: string, b: string, c: string)
    ensures (a + b) + c == a + (b + c)
    ensures a != "" ==> (a + (b + c))[0] == a[0]
  {
  }

  lemma FirstEscape(a: string, s: string)
    requires a != ""
    ensures EscapeAll(a) + ("\"" + s) == Escape(a[0]) + (EscapeAll(a[1..]) + ("\"" + s))
    ensures (EscapeAll(a) + ("\"" + s))[0] != '\"'
  {
    EscapeStartsInside(a[0]);
    hide Escape;
    Associate(Escape(a[0]), EscapeAll(a[1..]), "\"" + s);
  }

  lemma EscapedStart(a: string, s: string)
    ensures (EscapeAll(a) + ("\"" + s))[0] == '\"' <==> a == ""
  {
    if a == "" {
      assert EscapeAll(a) + ("\"" + s) == "\"" + s;
    } else {
      FirstEscape(a, s);
    }
  }

  lemma {:induction false} EscapedEndsAtQuote(a: string, b: string, s: string, t: string)
    requires EscapeAll(a) + ("\"" + s) == EscapeAll(b) + ("\"" + t)
    ensures a == b && s == t
    decreases |a|
  {
    hide Escape;
    var left, right := EscapeAll(a) + ("\"" + s), EscapeAll(b) + ("\"" + t);
    if a == "" {
      assert left == "\"" + s && left[0] == '\"';
      if b != "" { FirstEscape(b, t); }
      assert right == "\"" + t;
      SplitAt("\"", s, "\"", t);
    } else {
      FirstEscape(a, s);
      EscapedStart(b, t);
      FirstEscape(b, t);
      EscapeIsPrefixFree(a[0], b[0], EscapeAll(a[1..]) + ("\"" + s), EscapeAll(b[1..]) + ("\"" + t));
      EscapedEndsAtQuote(a[1..], b[1..], s, t);
      assert a == [a[0]] + a[1..] && b == [b[0]] + b[1..];
    }
  }

  lemma QuoteIsPrefixFree(a: string, b: string, s: string, t: string)
    requires Quote(a) + s == Quote(b) + t
    ensures a == b && s == t
  {
    hide EscapeAll;
    Regroup("\"", EscapeAll(a), "\"", s);
    Regroup("\"", EscapeAll(b), "\"", t);
    SplitAt("\"", EscapeAll(a) + ("\"" + s), "\"", EscapeAll(b) + ("\"" + t));
    EscapedEndsAtQuote(a, b, s, t);
  }

  lemma Regroup(a: string, b: string, c: string, d: string)
    ensures a + b + c + d == a + (b + (c + d))
  {
  }

  lemma SplitAt(a: string, s: string, b: string, t: string)
    requires a + s == b + t && |a| == |b|
    ensures a == b && s == t
  {
    assert a == (a + s)[..|a|] && b == (b + t)[..|b|];
    assert s == (a + s)[|a|..] && t == (b + t)[|b|..];
  }

  // ------------------------------------------------------------------------- numbers

  predicate IsNumeralChar(c: char) {
    '0' <= c <= '9' || c in {'+', '-', '.', 'e'}
  }

  predicate IsNumeral(text: string) {
    text != "" && text[0] != 'e' && forall i :: 0 <= i < |text| ==> IsNumeralChar(text[i])
  }

  /** What may follow a value inside a JSON text. */
  predicate IsDelimited(rest: string) {
    rest == "" || rest[0] in {',', ']', '}'}
  }

  lemma NumeralIsNotCutShort(a: string, b: string, s: string, t: string)
    requires IsNumeral(b) && IsDelimited(s) && a + s == b + t
    ensures |b| <= |a|
  {
    NextChar(a, s, b, t);
  }

  lemma NextChar(a: string, s: string, b: string, t: string)
    requires a + s == b + t
    ensures |a| < |b| ==> s != "" && s[0] == b[|a|]
  {
    if |a| < |b| {
      assert (a + s)[|a|] == (b + t)[|a|];
      assert |a + s| == |b + t|;
    }
  }

  lemma NumeralsAreMaximal(a: string, b: string, s: string, t: string)
    requires IsNumeral(a) && IsNumeral(b) && IsDelimited(s) && IsDelimited(t)
    requires a + s == b + t
    ensures a == b && s == t
  {
    NumeralIsNotCutShort(a, b, s, t);
    NumeralIsNotCutShort(b, a, t, s);
    SplitAt(a, s, b, t);
  }

  // ------------------------------------------------------------------- order of keys

  /** Rank of a character in the order in which JavaScript compares strings, by UTF-16 code unit. */
  function CodeRank(c: char): nat {
    var n := c as int;
    if n < 0xD800 then n
    else if n >= 0x10000 then n - 0x10000 + 0xD800
    else n - 0xE000 + 0x10D800
  }

  predicate KeyLess(a: string, b: string) {
    b != "" && (a == "" || CodeRank(a[0]) < CodeRank(b[0]) || (a[0] == b[0] && KeyLess(a[1..], b[1..])))
  }

  lemma {:induction false} KeyLessTotal(a: string, b: string)
    ensures KeyLess(a, b) || a == b || KeyLess(b, a)
    ensures !(KeyLess(a, b) && KeyLess(b, a))
    ensures a == b ==> !KeyLess(a, b)
  {
    if a != "" && b != "" && a[0] == b[0] {
      KeyLessTotal(a[1..], b[1..]);
      assert a == [a[0]] + a[1..] && b == [b[0]] + b[1..];
    }
  }

  lemma {:induction false} KeyLessTransitive(a: string, b: string, c: string)
    requires KeyLess(a, b) && KeyLess(b, c)
    ensures KeyLess(a, c)
  {
    if a != "" && a[0] == b[0] == c[0] {
      KeyLessTransitive(a[1..], b[1..], c[1..]);
    }
  }

  predicate IsSorted(keys: seq<string>) {
    forall i, j :: 0 <= i < j < |keys| ==> KeyLess(keys[i], keys[j])
  }

  ghost predicate Lists(keys: seq<string>, names: set<string>) {
    forall k :: k in keys <==> k in names
  }

  lemma SortedTail(keys: seq<string>, names: set<string>)
    requires IsSorted(keys) && Lists(keys, names) && keys != []
    ensures IsSorted(keys[1..]) && Lists(keys[1..], names - {keys[0]})
    ensures forall k :: k in names && k != keys[0] ==> KeyLess(keys[0], k)
  {
    assert keys == [keys[0]] + keys[1..];
    if keys[0] in keys[1..] {
      var i :| 0 <= i < |keys[1..]| && keys[1..][i] == keys[0];
      assert KeyLess(keys[0], keys[i + 1]);
      KeyLessTotal(keys[0], keys[0]);
    }
    forall k | k in names && k != keys[0] ensures KeyLess(keys[0], k) {
      var i :| 0 <= i < |keys| && keys[i] == k;
    }
  }

  lemma ListsNothing(keys: seq<string>, names: set<string>)
    requires Lists(keys, names)
    ensures keys == [] <==> names == {}
  {
    if keys != [] { assert keys[0] in names; }
  }

  /** A set of keys has only one sorted listing. */
  lemma {:induction false} SortedListingIsUnique(a: seq<string>, b: seq<string>, names: set<string>)
    requires IsSorted(a) && IsSorted(b) && Lists(a, names) && Lists(b, names)
    ensures a == b
  {
    ListsNothing(a, names);
    ListsNothing(b, names);
    if a != [] && b != [] {
      assert a[0] in a && b[0] in b;
      SortedTail(a, names);
      SortedTail(b, names);
      KeyLessTotal(a[0], b[0]);
      assert a[0] == b[0];
      SortedListingIsUnique(a[1..], b[1..], names - {a[0]});
      assert a == [a[0]] + a[1..] && b == [b[0]] + b[1..];
    }
  }

  function InsertKey(k: string, keys: seq<string>): (r: seq<string>)
    ensures forall x :: x in r <==> x == k || x in keys
  {
    if keys == [] || KeyLess(k, keys[0]) then [k] + keys
    else
      assert keys == [keys[0]] + keys[1..];
      [keys[0]] + InsertKey(k, keys[1..])
  }

  lemma {:induction false} InsertKeepsSorted(k: string, keys: seq<string>)
    requires IsSorted(keys) && k !in keys
    ensures IsSorted(InsertKey(k, keys))
  {
    if keys == [] {
    } else if KeyLess(k, keys[0]) {
      forall j | 0 <= j < |keys| ensures KeyLess(k, keys[j]) {
        if j > 0 { KeyLessTransitive(k, keys[0], keys[j]); }
      }
    } else {
      KeyLessTotal(k, keys[0]);
      assert keys[0] in keys;
      assert keys == [keys[0]] + keys[1..];
      InsertKeepsSorted(k, keys[1..]);
      var rest := InsertKey(k, keys[1..]);
      forall j | 0 <= j < |rest| ensures KeyLess(keys[0], rest[j]) {
        assert rest[j] in rest;
      }
    }
  }

  lemma {:induction false} SortedListingExists(names: set<string>) returns (keys: seq<string>)
    ensures IsSorted(keys) && Lists(keys, names)
  {
    if names == {} {
      keys := [];
    } else {
      var k :| k in names;
      var rest := SortedListingExists(names - {k});
      InsertKeepsSorted(k, rest);
      keys := InsertKey(k, rest);
    }
  }

  ghost function SortedKeys(names: set<string>): (keys: seq<string>)
    ensures IsSorted(keys) && Lists(keys, names)
  {
    assert exists keys :: IsSorted(keys) && Lists(keys, names) by {
      var keys := SortedListingExists(names);
    }
    var keys :| IsSorted(keys) && Lists(keys, names);
    keys
  }

  // ------------------------------------------------------------------ printing values

  ghost function Print(j: Json): string
    decreases j, 1
  {
    match j
    case JNull => "null"
    case JBool(b) => if b then "true" else "false"
    case JNumber(text) => text
    case JString(s) => Quote(s)
    case JArray(elems) => "[" + Elements(elems) + "]"
    case JObject(members) => "{" + Members(j, SortedKeys(members.Keys)) + "}"
  }

  ghost function Elements(elems: seq<Json>): string
    decreases elems, 0
  {
    if elems == [] then ""
    else if |elems| == 1 then Print(elems[0])
    else Print(elems[0]) + "," + Elements(elems[1..])
  }

  ghost function Member(j: Json, k: string): string
    requires j.JObject? && k in j.members
    decreases j, 0, 0
  {
    Quote(k) + ":" + Print(j.members[k])
  }

  ghost function Members(j: Json, keys: seq<string>): string
    requires j.JObject? && forall k :: k in keys ==> k in j.members
    decreases j, 0, |keys|
  {
    if keys == [] then ""
    else if |keys| == 1 then Member(j, keys[0])
    else Member(j, keys[0]) + "," + Members(j, keys[1..])
  }

  /** All number texts inside are numerals. */
  ghost predicate Printable(j: Json) {
    match j
    case JNumber(text) => IsNumeral(text)
    case JArray(elems) => forall e :: e in elems ==> Printable(e)
    case JObject(members) => forall k :: k in members ==> Printable(members[k])
    case _ => true
  }

  lemma PrintStarts(j: Json)
    requires Printable(j)
    ensures Print(j) != ""
    ensures var c := Print(j)[0];
            match j
            case JNull => c == 'n'
            case JBool(b) => c == if b then 't' else 'f'
            case JNumber(_) => IsNumeralChar(c) && c != 'e'
            case JString(_) => c == '\"'
            case JArray(_) => c == '['
            case JObject(_) => c == '{'
  {
  }

  /** The text of a value ends where it says: nothing else can be read off its front. */
  lemma {:induction false} PrintIsPrefixFree(j: Json, k: Json, s: string, t: string)
    requires Printable(j) && Printable(k) && IsDelimited(s) && IsDelimited(t)
    requires Print(j) + s == Print(k) + t
    ensures j == k && s == t
    decreases j, 1
  {
    PrintStarts(j);
    PrintStarts(k);
    assert (Print(j) + s)[0] == Print(j)[0] && (Print(k) + t)[0] == Print(k)[0];
    match j
    case JNull => SplitAt(Print(j), s, Print(k), t);
    case JBool(_) => SplitAt(Print(j), s, Print(k), t);
    case JNumber(_) => NumeralsAreMaximal(j.text, k.text, s, t);
    case JString(_) => QuoteIsPrefixFree(j.s, k.s, s, t);
    case JArray(_) =>
      Peel("[", Elements(j.elems), "]", s, Elements(k.elems), t);
      ElementsArePrefixFree(j.elems, k.elems, s, t);
    case JObject(_) =>
      var ks, ls := SortedKeys(j.members.Keys), SortedKeys(k.members.Keys);
      Peel("{", Members(j, ks), "}", s, Members(k, ls), t);
      MembersArePrefixFree(j, ks, k, ls, s, t);
      SameMembers(j, k, ks);
  }

  lemma Peel(open: string, a: string, close: string, s: string, b: string, t: string)
    requires (open + a + close) + s == (open + b + close) + t
    ensures a + (close + s) == b + (close + t)
  {
    assert (open + a + close) + s == open + (a + (close + s));
    assert (open + b + close) + t == open + (b + (close + t));
    SplitAt(open, a + (close + s), open, b + (close + t));
  }

  lemma SameMembers(j: Json, k: Json, keys: seq<string>)
    requires j.JObject? && k.JObject?
    requires Lists(keys, j.members.Keys) && Lists(keys, k.members.Keys)
    requires forall x :: x in keys ==> j.members[x] == k.members[x]
    ensures j == k
  {
    assert j.members.Keys == k.members.Keys by {
      forall x ensures x in j.members.Keys <==> x in k.members.Keys {
        assert x in keys <==> x in j.members.Keys;
      }
    }
    assert j.members == k.members;
  }

  /** What follows the first of a comma-separated list. */
  ghost function After(rest: string, empty: bool, close: string, s: string): string {
    if empty then close + s else "," + (rest + (close + s))
  }

  lemma {:induction false} ElementsArePrefixFree(a: seq<Json>, b: seq<Json>, s: string, t: string)
    requires (forall e :: e in a ==> Printable(e)) && (forall e :: e in b ==> Printable(e))
    requires Elements(a) + ("]" + s) == Elements(b) + ("]" + t)
    ensures a == b && s == t
    decreases a, 0
  {
    if a == [] || b == [] {
      EmptyElements(a, s, b, t);
    } else {
      var x, y := After(Elements(a[1..]), |a| == 1, "]", s), After(Elements(b[1..]), |b| == 1, "]", t);
      FirstElement(a, s);
      FirstElement(b, t);
      PrintIsPrefixFree(a[0], b[0], x, y);
      assert x[0] == y[0];
      if |a| > 1 {
        SplitAt(",", Elements(a[1..]) + ("]" + s), ",", Elements(b[1..]) + ("]" + t));
        ElementsArePrefixFree(a[1..], b[1..], s, t);
        assert a == [a[0]] + a[1..] && b == [b[0]] + b[1..];
      } else {
        SplitAt("]", s, "]", t);
      }
    }
  }

  lemma FirstElement(a: seq<Json>, s: string)
    requires a != []
    ensures Elements(a) + ("]" + s) == Print(a[0]) + After(Elements(a[1..]), |a| == 1, "]", s)
  {
    hide Print;
    Regroup(Print(a[0]), ",", Elements(a[1..]), "]" + s);
  }

  lemma ElementsStart(a: seq<Json>, s: string)
    requires forall e :: e in a ==> Printable(e)
    ensures (Elements(a) + ("]" + s))[0] == ']' <==> a == []
  {
    if a != [] {
      PrintStarts(a[0]);
      hide Print, Printable, Elements;
      FirstElement(a, s);
      assert (Print(a[0]) + After(Elements(a[1..]), |a| == 1, "]", s))[0] == Print(a[0])[0];
    }
  }

  lemma EmptyElements(a: seq<Json>, s: string, b: seq<Json>, t: string)
    requires (forall e :: e in a ==> Printable(e)) && (forall e :: e in b ==> Printable(e))
    requires a == [] || b == []
    requires Elements(a) + ("]" + s) == Elements(b) + ("]" + t)
    ensures a == b && s == t
  {
    ElementsStart(a, s);
    ElementsStart(b, t);
    assert a == [] && b == [];
    assert Elements(a) + ("]" + s) == "]" + s && Elements(b) + ("]" + t) == "]" + t;
    SplitAt("]", s, "]", t);
  }

  lemma {:induction false} MembersArePrefixFree(j: Json, a: seq<string>, k: Json, b: seq<string>, s: string, t: string)
    requires j.JObject? && (forall x :: x in a ==> x in j.members) && Printable(j)
    requires k.JObject? && (forall x :: x in b ==> x in k.members) && Printable(k)
    requires Members(j, a) + ("}" + s) == Members(k, b) + ("}" + t)
    ensures a == b && s == t && forall x :: x in a ==> j.members[x] == k.members[x]
    decreases j, 0, |a|
  {
    hide Quote, Print, Members;
    if a == [] || b == [] {
      EmptyMembers(j, a, s, k, b, t);
    } else {
      var x := After(Members(j, a[1..]), |a| == 1, "}", s);
      var y := After(Members(k, b[1..]), |b| == 1, "}", t);
      FirstMember(j, a, s);
      FirstMember(k, b, t);
      QuoteIsPrefixFree(a[0], b[0], ":" + (Print(j.members[a[0]]) + x), ":" + (Print(k.members[b[0]]) + y));
      SplitAt(":", Print(j.members[a[0]]) + x, ":", Print(k.members[b[0]]) + y);
      PrintIsPrefixFree(j.members[a[0]], k.members[b[0]], x, y);
      assert x[0] == y[0];
      assert a == [a[0]] + a[1..] && b == [b[0]] + b[1..];
      if |a| > 1 {
        SplitAt(",", Members(j, a[1..]) + ("}" + s), ",", Members(k, b[1..]) + ("}" + t));
        MembersArePrefixFree(j, a[1..], k, b[1..], s, t);
      } else {
        SplitAt("}", s, "}", t);
      }
    }
  }

  lemma FirstMember(j: Json, a: seq<string>, s: string)
    requires j.JObject? && a != [] && forall x :: x in a ==> x in j.members
    ensures Members(j, a) + ("}" + s)
            == Quote(a[0]) + (":" + (Print(j.members[a[0]]) + After(Members(j, a[1..]), |a| == 1, "}", s)))
  {
    hide Quote, Print;
    var q, v, r := Quote(a[0]), Print(j.members[a[0]]), Members(j, a[1..]);
    Regroup(q, ":", v, "}" + s);
    Regroup(q + ":" + v, ",", r, "}" + s);
    Regroup(q, ":", v, "," + (r + ("}" + s)));
  }

  lemma MembersStart(j: Json, a: seq<string>, s: string)
    requires j.JObject? && (forall x :: x in a ==> x in j.members)
    ensures (Members(j, a) + ("}" + s))[0] == if a == [] then '}' else '\"'
  {
    if a != [] {
      hide Print, Members;
      FirstMember(j, a, s);
      var rest := ":" + (Print(j.members[a[0]]) + After(Members(j, a[1..]), |a| == 1, "}", s));
      assert Quote(a[0])[0] == '\"';
      assert (Quote(a[0]) + rest)[0] == Quote(a[0])[0];
    }
  }

  lemma EmptyMembers(j: Json, a: seq<string>, s: string, k: Json, b: seq<string>, t: string)
    requires j.JObject? && (forall x :: x in a ==> x in j.members)
    requires k.JObject? && (forall x :: x in b ==> x in k.members)
    requires a == [] || b == []
    requires Members(j, a) + ("}" + s) == Members(k, b) + ("}" + t)
    ensures a == b && s == t
  {
    MembersStart(j, a, s);
    MembersStart(k, b, t);
    assert a == [] && b == [];
    assert Members(j, a) + ("}" + s) == "}" + s && Members(k, b) + ("}" + t) == "}" + t;
    SplitAt("}", s, "}", t);
  }

  /** Equal text means equal value. */
  lemma PrintIsInjective(j: Json, k: Json)
    requires Printable(j) && Printable(k) && Print(j) == Print(k)
    ensures j == k
  {
    assert Print(j) + "" == Print(k) + "";
    PrintIsPrefixFree(j, k, "", "");
  }
}
