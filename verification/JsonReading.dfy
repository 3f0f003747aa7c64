/**
 * The printed text, read by others: values as RFC 8259, sections 3 to 7, reads them, keys
 * in the order in which JavaScript compares strings, and integers in base ten.
 */
module JsonReading {
  import opened Wrappers
  import opened Basics
  import opened Values
  import opened JsonText
  import opened Canonical
  import opened AuditChain

  // ----------------------------------------------------------------------- strings

  function HexValue(c: char): Option<nat> {
    if '0' <= c <= '9' then Some((c - '0') as nat)
    else if 'a' <= c <= 'f' then Some((c - 'a') as nat + 10)
    else if 'A' <= c <= 'F' then Some((c - 'A') as nat + 10)
    else None
  }

  /** A code point outside the surrogates from its four hexadecimal digits. */
  function FromCode(text: string): Option<char>
    requires |text| == 4
  {
    var a, b, c, d := HexValue(text[0]), HexValue(text[1]), HexValue(text[2]), HexValue(text[3]);
    if a.None? || b.None? || c.None? || d.None? then None
    else
      var n := ((a.value * 16 + b.value) * 16 + c.value) * 16 + d.value;
      if n < 0xD800 then Some(n as char) else None
  }

  /** The character that an escape other than \\u stands for. */
  function Unescape(c: char): Option<char> {
    match c
    case '\"' => Some('\"')
    case '\\' => Some('\\')
    case '/' => Some('/')
    case 'b' => Some(8 as char)
    case 'f' => Some(12 as char)
    case 'n' => Some(10 as char)
    case 'r' => Some(13 as char)
    case 't' => Some(9 as char)
    case _ => None
  }

  /** The first character of a string's inside and what follows it; quotes and control characters cannot stand there. */
  function ReadChar(text: string): Option<(char, string)> {
    if text == "" || text[0] == '\"' || text[0] as int < 32 then None
    else if text[0] != '\\' then Some((text[0], text[1..]))
    else if |text| < 2 then None
    else if text[1] == 'u' then
      if |text| < 6 || FromCode(text[2..6]).None? then None else Some((FromCode(text[2..6]).value, text[6..]))
    else if Unescape(text[1]).None? then None
    else Some((Unescape(text[1]).value, text[2..]))
  }

  /** The string up to its closing quote, and what follows that. */
  function ReadInside(text: string): Option<(string, string)>
    decreases |text|
  {
    if text != "" && text[0] == '\"' then Some(("", text[1..]))
    else
      match ReadChar(text)
      case None => None
      case Some((c, more)) =>
        if |more| >= |text| then None
        else
          match ReadInside(more)
          case None => None
          case Some((s, rest)) => Some(([c] + s, rest))
  }

  lemma HexDigitReads(d: nat)
    requires d < 16
    ensures HexValue(HEX_DIGITS[d]) == Some(d)
  {
  }

  lemma CodeReads(n: nat)
    requires n < 32
    ensures FromCode("00" + [HEX_DIGITS[n / 16], HEX_DIGITS[n % 16]]) == Some(n as char)
  {
    HexDigitReads(n / 16);
    HexDigitReads(n % 16);
  }

  lemma EscapedCharReadsBack(c: char, rest: string)
    ensures ReadChar(Escape(c) + rest) == Some((c, rest))
  {
    var text, n := Escape(c) + rest, c as int;
    if |Escape(c)| == 6 {
      assert text[2..6] == "00" + [HEX_DIGITS[n / 16], HEX_DIGITS[n % 16]];
      CodeReads(n);
      assert text[6..] == rest;
    } else {
      assert text[|Escape(c)|..] == rest;
    }
  }

  lemma {:induction false} EscapedReadsBack(s: string, rest: string)
    ensures ReadInside(EscapeAll(s) + ("\"" + rest)) == Some((s, rest))
  {
    hide Escape, ReadChar;
    var text := EscapeAll(s) + ("\"" + rest);
    if s == "" {
      assert text == "\"" + rest;
      assert text[1..] == rest;
    } else {
      var more := EscapeAll(s[1..]) + ("\"" + rest);
      FirstEscape(s, rest);
      EscapeStartsInside(s[0]);
      EscapedCharReadsBack(s[0], more);
      EscapedReadsBack(s[1..], rest);
      assert s == [s[0]] + s[1..];
    }
  }

  /** A quoted string reads back as the string, whatever is in it. */
  lemma QuoteReadsBack(s: string, rest: string)
    ensures (Quote(s) + rest)[0] == '\"' && ReadInside((Quote(s) + rest)[1..]) == Some((s, rest))
  {
    hide EscapeAll;
    Regroup("\"", EscapeAll(s), "\"", rest);
    assert (Quote(s) + rest)[1..] == EscapeAll(s) + ("\"" + rest);
    EscapedReadsBack(s, rest);
  }

  // ------------------------------------------------------------------------ values

  function NumeralLength(text: string): (n: nat)
    ensures n <= |text|
  {
    if text == "" || !IsNumeralChar(text[0]) then 0 else 1 + NumeralLength(text[1..])
  }

  /** A value at the front of a text without white space, and what follows it (RFC 8259, sections 3 to 7). */
  function Read(text: string): Option<(Json, string)>
    decreases |text|, 0
  {
    if text == "" then None
    else if text[0] == '\"' then
      match ReadInside(text[1..])
      case None => None
      case Some((s, rest)) => Some((JString(s), rest))
    else if text[0] == '[' then
      if |text| > 1 && text[1] == ']' then Some((JArray([]), text[2..]))
      else
        match ReadElements(text[1..])
        case None => None
        case Some((elems, rest)) => Some((JArray(elems), rest))
    else if text[0] == '{' then
      if |text| > 1 && text[1] == '}' then Some((JObject(map[]), text[2..]))
      else
        match ReadMembers(text[1..])
        case None => None
        case Some((members, rest)) => Some((JObject(members), rest))
    else if IsNumeralChar(text[0]) && text[0] != 'e' then
      Some((JNumber(text[..NumeralLength(text)]), text[NumeralLength(text)..]))
    else if "null" <= text then Some((JNull, text[4..]))
    else if "true" <= text then Some((JBool(true), text[4..]))
    else if "false" <= text then Some((JBool(false), text[5..]))
    else None
  }

  /** Values with commas between them, up to the closing bracket. */
  function ReadElements(text: string): Option<(seq<Json>, string)>
    decreases |text|, 1
  {
    match Read(text)
    case None => None
    case Some((j, more)) =>
      if more == "" || |more| > |text| then None
      else if more[0] == ']' then Some(([j], more[1..]))
      else if more[0] != ',' then None
      else
        match ReadElements(more[1..])
        case None => None
        case Some((elems, rest)) => Some(([j] + elems, rest))
  }

  /** Names and values with commas between them, up to the closing brace. */
  function ReadMembers(text: string): Option<(map<string, Json>, string)>
    decreases |text|, 1
  {
    if text == "" || text[0] != '\"' then None
    else
      match ReadInside(text[1..])
      case None => None
      case Some((k, value)) =>
        if value == "" || value[0] != ':' || |value| > |text| then None
        else
          match Read(value[1..])
          case None => None
          case Some((j, more)) =>
            if more == "" || |more| > |text| then None
            else if more[0] == '}' then Some((map[k := j], more[1..]))
            else if more[0] != ',' then None
            else
              match ReadMembers(more[1..])
              case None => None
              case Some((members, rest)) => Some((members[k := j], rest))
  }

  lemma {:induction false} NumeralReads(text: string, rest: string)
    requires (forall i :: 0 <= i < |text| ==> IsNumeralChar(text[i])) && IsDelimited(rest)
    ensures NumeralLength(text + rest) == |text|
  {
    if text == "" {
      assert text + rest == rest;
    } else {
      NumeralReads(text[1..], rest);
      assert (text + rest)[1..] == text[1..] + rest;
    }
  }

  lemma NumberReadsBack(text: string, rest: string)
    requires IsNumeral(text) && IsDelimited(rest)
    ensures Read(text + rest) == Some((JNumber(text), rest))
  {
    NumeralReads(text, rest);
    var all := text + rest;
    assert all[..|text|] == text && all[|text|..] == rest && all[0] == text[0];
  }

  lemma LiteralReadsBack(j: Json, rest: string)
    requires j.JNull? || j.JBool?
    ensures Read(Print(j) + rest) == Some((j, rest))
  {
    var word := Print(j);
    assert (word + rest)[|word|..] == rest && (word + rest)[..|word|] == word && (word + rest)[0] == word[0];
  }

  lemma StringReadsBack(s: string, rest: string)
    ensures Read(Quote(s) + rest) == Some((JString(s), rest))
  {
    hide EscapeAll, ReadInside;
    QuoteReadsBack(s, rest);
  }

  /** What is printed reads back as the value, wherever it stands in a text. */
  lemma {:induction false} PrintReadsBack(j: Json, rest: string)
    requires Printable(j) && IsDelimited(rest)
    ensures Read(Print(j) + rest) == Some((j, rest))
    decreases j, 1
  {
    hide Quote, ReadInside, ReadElements, ReadMembers, NumeralLength;
    match j
    case JNull => LiteralReadsBack(j, rest);
    case JBool(_) => LiteralReadsBack(j, rest);
    case JNumber(text) => NumberReadsBack(text, rest);
    case JString(s) => StringReadsBack(s, rest);
    case JArray(elems) =>
      var inside := Elements(elems) + ("]" + rest);
      Enclosed("[", Elements(elems), "]", rest);
      ElementsStart(elems, rest);
      if elems == [] {
        assert inside == "]" + rest;
        assert (Print(j) + rest)[2..] == inside[1..];
      } else {
        ElementsReadBack(elems, rest);
      }
    case JObject(members) =>
      var keys := SortedKeys(members.Keys);
      var inside := Members(j, keys) + ("}" + rest);
      Enclosed("{", Members(j, keys), "}", rest);
      MembersStart(j, keys, rest);
      if keys == [] {
        assert inside == "}" + rest;
        assert (Print(j) + rest)[2..] == inside[1..];
        NoKeysNoMembers(members, keys);
      } else {
        MembersReadBack(j, keys, rest);
        AllMembers(members, keys);
      }
  }

  lemma Enclosed(open: string, inside: string, close: string, rest: string)
    requires |open| == 1
    ensures ((open + inside + close) + rest)[0] == open[0]
    ensures ((open + inside + close) + rest)[1..] == inside + (close + rest)
  {
    Regroup(open, inside, close, rest);
  }

  lemma NoKeysNoMembers(members: map<string, Json>, keys: seq<string>)
    requires Lists(keys, members.Keys) && keys == []
    ensures members == map[]
  {
    forall k
      ensures k !in members
    {
      assert k in keys <==> k in members.Keys;
    }
  }

  /** The members under these keys. */
  function Selected(members: map<string, Json>, keys: seq<string>): map<string, Json>
    requires forall k :: k in keys ==> k in members
  {
    map k | k in keys :: members[k]
  }

  lemma AllMembers(members: map<string, Json>, keys: seq<string>)
    requires Lists(keys, members.Keys)
    ensures forall k :: k in keys ==> k in members
    ensures Selected(members, keys) == members
  {
    assert forall k :: k in keys <==> k in members.Keys;
  }

  lemma {:induction false} ElementsReadBack(a: seq<Json>, s: string)
    requires a != [] && forall e :: e in a ==> Printable(e)
    ensures ReadElements(Elements(a) + ("]" + s)) == Some((a, s))
    decreases a, 0
  {
    hide Read, Print;
    var more := After(Elements(a[1..]), |a| == 1, "]", s);
    FirstElement(a, s);
    PrintReadsBack(a[0], more);
    if |a| == 1 {
      assert more[1..] == s;
      assert a == [a[0]];
    } else {
      ElementsReadBack(a[1..], s);
      assert more[1..] == Elements(a[1..]) + ("]" + s);
      assert a == [a[0]] + a[1..];
    }
  }

  lemma {:induction false} MembersReadBack(j: Json, keys: seq<string>, s: string)
    requires j.JObject? && Printable(j) && keys != [] && (forall k :: k in keys ==> k in j.members)
    ensures ReadMembers(Members(j, keys) + ("}" + s)) == Some((Selected(j.members, keys), s))
    decreases j, 0, |keys|
  {
    hide Read, Print, Quote, ReadInside;
    var k := keys[0];
    var more := After(Members(j, keys[1..]), |keys| == 1, "}", s);
    var value := ":" + (Print(j.members[k]) + more);
    FirstMember(j, keys, s);
    QuoteReadsBack(k, value);
    assert value[1..] == Print(j.members[k]) + more;
    PrintReadsBack(j.members[k], more);
    assert keys == [k] + keys[1..];
    MemberTextIsLonger(Quote(k), value, more);
    if |keys| == 1 {
      assert more[1..] == s;
      assert Selected(j.members, keys) == map[k := j.members[k]];
    } else {
      MembersReadBack(j, keys[1..], s);
      assert more[1..] == Members(j, keys[1..]) + ("}" + s);
      assert Selected(j.members, keys) == Selected(j.members, keys[1..])[k := j.members[k]];
    }
  }

  lemma MemberTextIsLonger(quoted: string, value: string, more: string)
    requires |more| <= |value|
    ensures |value| <= |quoted + value| && |more| <= |quoted + value|
  {
  }

  /** The canonical text of a value reads back as its normal form, and nothing is left over. */
  lemma CanonicalReadsBack(v: Value)
    requires WellFormed(v)
    ensures Read(Canonicalize(v)) == Some((Normalize(v), ""))
  {
    hide Read, Print, Canonicalize, Normalize;
    CanonicalIsPrintedNormal(v);
    PrintReadsBack(Normalize(v), "");
    assert Print(Normalize(v)) + "" == Print(Normalize(v));
  }

  // ------------------------------------------------------------------- order of keys

  /** The UTF-16 code units of a character. */
  function Units(c: char): (units: seq<nat>)
    ensures units != []
  {
    var n := c as int;
    if n < 0x10000 then [n as nat] else [0xD800 + (n - 0x10000) / 0x400, 0xDC00 + (n - 0x10000) % 0x400]
  }

  function AllUnits(s: string): seq<nat> {
    if s == "" then [] else Units(s[0]) + AllUnits(s[1..])
  }

  /** How JavaScript compares strings: by their first different code units. */
  predicate UnitsLess(a: seq<nat>, b: seq<nat>) {
    b != [] && (a == [] || a[0] < b[0] || (a[0] == b[0] && UnitsLess(a[1..], b[1..])))
  }

  lemma {:induction false} SameStart(common: seq<nat>, a: seq<nat>, b: seq<nat>)
    ensures UnitsLess(common + a, common + b) <==> UnitsLess(a, b)
  {
    if common == [] {
      assert common + a == a && common + b == b;
    } else {
      SameStart(common[1..], a, b);
      assert (common + a)[1..] == common[1..] + a && (common + b)[1..] == common[1..] + b;
    }
  }

  /** Different characters are told apart by their own code units. */
  lemma CharsByUnits(c: char, d: char, x: seq<nat>, y: seq<nat>)
    requires c != d
    ensures UnitsLess(Units(c) + x, Units(d) + y) <==> CodeRank(c) < CodeRank(d)
  {
    var a, b := Units(c) + x, Units(d) + y;
    assert a[0] == Units(c)[0] && b[0] == Units(d)[0];
    if a[0] == b[0] {
      assert |Units(c)| == 2 && |Units(d)| == 2;
      assert a[1..][0] == Units(c)[1] && b[1..][0] == Units(d)[1];
    }
  }

  /** Keys are sorted in the order in which JavaScript compares them. */
  lemma {:induction false} KeysByUnits(a: string, b: string)
    ensures KeyLess(a, b) <==> UnitsLess(AllUnits(a), AllUnits(b))
  {
    hide Units, CodeRank;
    if a != "" && b != "" {
      if a[0] == b[0] {
        KeysByUnits(a[1..], b[1..]);
        SameStart(Units(a[0]), AllUnits(a[1..]), AllUnits(b[1..]));
      } else {
        CharsByUnits(a[0], b[0], AllUnits(a[1..]), AllUnits(b[1..]));
      }
    }
  }

  // ------------------------------------------------------------------------- numbers

  function FromDecimal(text: string): nat {
    if text == "" then 0
    else
      var c := text[|text| - 1];
      10 * FromDecimal(text[..|text| - 1]) + if '0' <= c <= '9' then (c - '0') as nat else 0
  }

  lemma {:induction false} NatTextReadsBack(n: nat)
    ensures FromDecimal(NatText(n)) == n
  {
    if n >= 10 {
      NatTextReadsBack(n / 10);
      assert NatText(n)[..|NatText(n)| - 1] == NatText(n / 10);
    } else {
      assert NatText(n)[..0] == "";
    }
  }

  function FromSigned(text: string): int {
    if text != "" && text[0] == '-' then -(FromDecimal(text[1..]) as int) else FromDecimal(text)
  }

  /** A number prints in base ten, with a minus sign exactly when it is negative. */
  lemma IntTextReadsBack(n: int)
    ensures FromSigned(IntText(n)) == n && (n < 0 <==> IntText(n)[0] == '-')
  {
    NatTextIsDigits(if n < 0 then -n else n);
    NatTextReadsBack(if n < 0 then -n else n);
    assert n < 0 ==> IntText(n)[1..] == NatText(-n);
  }

  // ------------------------------------------------------------------- hashed entries

  function StringOrNull(t: Option<string>): Json {
    if t.Some? then JString(t.value) else JNull
  }

  ghost predicate HasMember(m: map<string, Json>, key: string, j: Json) {
    key in m && m[key] == j
  }

  lemma MemberOf(e: Entry, i: nat)
    requires i < 11
    ensures HasMember(NormalMembers(HashedProps(e)), HashedProps(e)[i].key, Normalize(HashedProps(e)[i].value))
  {
    hide NormalMembers, DistinctKeys, Normalize;
    HashedKeysDiffer(e);
    MembersAreDefined(HashedProps(e));
    assert HashedProps(e)[i] in HashedProps(e);
  }

  lemma TextMembers(e: Entry)
    ensures var m := NormalMembers(HashedProps(e));
            && HasMember(m, "recordedAt", JString(e.recordedAt)) && HasMember(m, "prevHash", JString(e.prevHash))
            && HasMember(m, "actor", JString(e.input.actor)) && HasMember(m, "actorType", JString(e.input.actorType))
            && HasMember(m, "action", JString(e.input.action)) && HasMember(m, "outcome", JString(e.input.outcome))
            && HasMember(m, "resourceType", JString(e.input.resourceType))
  {
    hide NormalMembers, HasMember, IntText;
    MemberOf(e, 1);
    MemberOf(e, 2);
    MemberOf(e, 3);
    MemberOf(e, 4);
    MemberOf(e, 5);
    MemberOf(e, 8);
    MemberOf(e, 10);
  }

  lemma OtherMembers(e: Entry)
    ensures var m := NormalMembers(HashedProps(e));
            && HasMember(m, "sequence", JNumber(IntText(e.sequence)))
            && HasMember(m, "resourceId", StringOrNull(e.input.resourceId))
            && HasMember(m, "traceId", StringOrNull(e.input.traceId))
            && HasMember(m, "detail", Normalize(Object(e.input.detail)))
  {
    hide NormalMembers, HasMember, IntText;
    MemberOf(e, 0);
    MemberOf(e, 6);
    MemberOf(e, 7);
    MemberOf(e, 9);
  }

  /** What is hashed of an entry, by name. */
  lemma HashedByName(e: Entry)
    ensures Normalize(Object(HashedProps(e))).JObject?
    ensures var m := Normalize(Object(HashedProps(e))).members;
            && HasMember(m, "sequence", JNumber(IntText(e.sequence)))
            && HasMember(m, "recordedAt", JString(e.recordedAt)) && HasMember(m, "prevHash", JString(e.prevHash))
            && HasMember(m, "actor", JString(e.input.actor)) && HasMember(m, "actorType", JString(e.input.actorType))
            && HasMember(m, "action", JString(e.input.action)) && HasMember(m, "outcome", JString(e.input.outcome))
            && HasMember(m, "resourceType", JString(e.input.resourceType))
            && HasMember(m, "resourceId", StringOrNull(e.input.resourceId))
            && HasMember(m, "traceId", StringOrNull(e.input.traceId))
            && HasMember(m, "detail", Normalize(Object(e.input.detail)))
  {
    hide NormalMembers, HasMember, IntText, HashedProps;
    TextMembers(e);
    OtherMembers(e);
    assert Normalize(Object(HashedProps(e))) == JObject(NormalMembers(HashedProps(e)));
  }
}
