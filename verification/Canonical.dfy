/** `canonicalize` (packages/core/src/audit/ledger.ts): JSON with sorted keys. */
module Canonical {
  import opened Wrappers
  import opened Values
  import opened JsonText

  function Join(parts: seq<string>): string {
    if parts == [] then ""
    else if |parts| == 1 then parts[0]
    else parts[0] + "," + Join(parts[1..])
  }

  /** The properties that have a value. */
  function Defined(props: seq<Property>): (r: seq<Property>)
    ensures forall p :: p in r <==> p in props && p.value != Undefined
  {
    if props == [] then []
    else
      assert props == [props[0]] + props[1..];
      (if props[0].value == Undefined then [] else [props[0]]) + Defined(props[1..])
  }

  function InsertByKey(p: Property, props: seq<Property>): (r: seq<Property>)
    ensures forall q :: q in r <==> q == p || q in props
  {
    if props == [] || !KeyLess(props[0].key, p.key) then [p] + props
    else
      assert props == [props[0]] + props[1..];
      [props[0]] + InsertByKey(p, props[1..])
  }

  function SortByKey(props: seq<Property>): (r: seq<Property>)
    ensures forall q :: q in r <==> q in props
  {
    if props == [] then []
    else
      assert props == [props[0]] + props[1..];
      InsertByKey(props[0], SortByKey(props[1..]))
  }

  function Canonicalize(v: Value): string {
    match v
    case Undefined => "null"
    case Null => "null"
    case Bool(b) => if b then "true" else "false"
    case Number(NonFinite) => "null"
    case Number(Finite(text)) => text
    case Text(s) => Quote(s)
    case Function => "null"
    case Date(_) => "{}"
    case Array(elems) =>
      "[" + Join(seq(|elems|, i requires 0 <= i < |elems| => Canonicalize(elems[i]))) + "]"
    case Object(props) =>
      var entries := SortByKey(Defined(props));
      "{" + Join(seq(|entries|, i requires 0 <= i < |entries| =>
                      assert entries[i] in props;
                      Quote(entries[i].key) + ":" + Canonicalize(entries[i].value))) + "}"
  }

  // ---------------------------------------------------------------------- normal form

  predicate DistinctKeys(props: seq<Property>) {
    forall i, j :: 0 <= i < j < |props| ==> props[i].key != props[j].key
  }

  /** Values JavaScript can hold: an object has no key twice, a finite number prints as a numeral. */
  ghost predicate WellFormed(v: Value) {
    match v
    case Number(Finite(text)) => IsNumeral(text)
    case Array(elems) => forall e :: e in elems ==> WellFormed(e)
    case Object(props) => DistinctKeys(props) && forall p :: p in props ==> WellFormed(p.value)
    case _ => true
  }

  /**
   * The value that the canonical text stands for: no key order, undefined
   * dropped from objects and read as null elsewhere, non-finite numbers and
   * functions read as null, dates read as objects without properties.
   */
  function Normalize(v: Value): Json
    decreases v, 1
  {
    match v
    case Undefined => JNull
    case Null => JNull
    case Bool(b) => JBool(b)
    case Number(NonFinite) => JNull
    case Number(Finite(text)) => JNumber(text)
    case Text(s) => JString(s)
    case Function => JNull
    case Date(_) => JObject(map[])
    case Array(elems) => JArray(seq(|elems|, i requires 0 <= i < |elems| => Normalize(elems[i])))
    case Object(props) => JObject(NormalMembers(props))
  }

  function NormalMembers(props: seq<Property>): map<string, Json>
    decreases props, 0
  {
    if props == [] then map[]
    else
      var rest := NormalMembers(props[1..]);
      if props[0].value == Undefined then rest else rest[props[0].key := Normalize(props[0].value)]
  }

  lemma TailIsDistinct(props: seq<Property>)
    requires DistinctKeys(props) && props != []
    ensures DistinctKeys(props[1..])
    ensures forall p :: p in props <==> p == props[0] || p in props[1..]
    ensures forall p :: p in props[1..] ==> p.key != props[0].key
  {
    assert props == [props[0]] + props[1..];
    forall p | p in props[1..] ensures p.key != props[0].key {
      var i :| 0 <= i < |props[1..]| && props[1..][i] == p;
      assert props[i + 1] == p;
    }
  }

  /** The members of the normal form are exactly the defined properties. */
  lemma {:induction false} MembersAreDefined(props: seq<Property>)
    requires DistinctKeys(props)
    ensures forall k :: k in NormalMembers(props) <==> exists p :: p in props && p.key == k && p.value != Undefined
    ensures forall p :: p in props && p.value != Undefined ==>
              p.key in NormalMembers(props) && NormalMembers(props)[p.key] == Normalize(p.value)
  {
    if props != [] {
      TailIsDistinct(props);
      MembersAreDefined(props[1..]);
      var rest, all := NormalMembers(props[1..]), NormalMembers(props);
      forall k ensures k in all <==> exists p :: p in props && p.key == k && p.value != Undefined {
        if k in rest {
          var p :| p in props[1..] && p.key == k && p.value != Undefined;
          assert p in props;
        }
        if k == props[0].key { assert props[0] in props; }
      }
    }
  }

  /** Objects with the same keys and equal normal forms agree property by property, and conversely. */
  lemma SameMembersSameValues(ps: seq<Property>, qs: seq<Property>)
    requires DistinctKeys(ps) && DistinctKeys(qs) && |ps| == |qs|
    requires forall i :: 0 <= i < |ps| ==>
               ps[i].key == qs[i].key && ps[i].value != Undefined && qs[i].value != Undefined
    ensures NormalMembers(ps) == NormalMembers(qs) <==>
            forall i :: 0 <= i < |ps| ==> Normalize(ps[i].value) == Normalize(qs[i].value)
  {
    if NormalMembers(ps) == NormalMembers(qs) {
      MembersAreDefined(ps);
      MembersAreDefined(qs);
      forall i | 0 <= i < |ps| ensures Normalize(ps[i].value) == Normalize(qs[i].value) {
        assert ps[i] in ps && qs[i] in qs;
      }
    }
    if forall i :: 0 <= i < |ps| ==> Normalize(ps[i].value) == Normalize(qs[i].value) {
      SameValuesSameMembers(ps, qs);
    }
  }

  lemma {:induction false} SameValuesSameMembers(ps: seq<Property>, qs: seq<Property>)
    requires |ps| == |qs|
    requires forall i :: 0 <= i < |ps| ==>
               ps[i].key == qs[i].key && (ps[i].value == Undefined <==> qs[i].value == Undefined)
               && Normalize(ps[i].value) == Normalize(qs[i].value)
    ensures NormalMembers(ps) == NormalMembers(qs)
  {
    if ps != [] {
      SameValuesSameMembers(ps[1..], qs[1..]);
    }
  }

  // ------------------------------------------------------------------------- sorting

  ghost predicate SortedByKey(props: seq<Property>) {
    forall i, j :: 0 <= i < j < |props| ==> KeyLess(props[i].key, props[j].key)
  }

  lemma {:induction false} InsertByKeySorts(p: Property, props: seq<Property>)
    requires SortedByKey(props) && forall q :: q in props ==> q.key != p.key
    ensures SortedByKey(InsertByKey(p, props))
  {
    if props != [] {
      KeyLessTotal(props[0].key, p.key);
      assert props[0] in props;
      if KeyLess(props[0].key, p.key) {
        assert props == [props[0]] + props[1..];
        InsertByKeySorts(p, props[1..]);
        var rest := InsertByKey(p, props[1..]);
        forall j | 0 <= j < |rest| ensures KeyLess(props[0].key, rest[j].key) {
          assert rest[j] in rest;
        }
      } else {
        forall j | 0 <= j < |props| ensures KeyLess(p.key, props[j].key) {
          if j > 0 { KeyLessTransitive(p.key, props[0].key, props[j].key); }
        }
      }
    }
  }

  lemma {:induction false} SortByKeySorts(props: seq<Property>)
    requires DistinctKeys(props)
    ensures SortedByKey(SortByKey(props))
  {
    if props != [] {
      TailIsDistinct(props);
      SortByKeySorts(props[1..]);
      InsertByKeySorts(props[0], SortByKey(props[1..]));
    }
  }

  lemma {:induction false} DefinedAreDistinct(props: seq<Property>)
    requires DistinctKeys(props)
    ensures DistinctKeys(Defined(props))
  {
    if props != [] {
      TailIsDistinct(props);
      DefinedAreDistinct(props[1..]);
      var rest := Defined(props[1..]);
      forall j | 0 <= j < |rest| ensures rest[j].key != props[0].key {
        assert rest[j] in rest;
      }
    }
  }

  // ------------------------------------------------ the text depends on the normal form

  lemma {:induction false} JoinsElements(elems: seq<Json>, parts: seq<string>)
    requires |parts| == |elems| && forall i :: 0 <= i < |elems| ==> parts[i] == Print(elems[i])
    ensures Join(parts) == Elements(elems)
  {
    if |elems| > 1 {
      JoinsElements(elems[1..], parts[1..]);
    }
  }

  lemma {:induction false} JoinsMembers(j: Json, keys: seq<string>, parts: seq<string>)
    requires j.JObject? && forall k :: k in keys ==> k in j.members
    requires |parts| == |keys| && forall i :: 0 <= i < |keys| ==> parts[i] == Member(j, keys[i])
    ensures Join(parts) == Members(j, keys)
  {
    if |keys| > 1 {
      JoinsMembers(j, keys[1..], parts[1..]);
    }
  }

  function KeysOf(entries: seq<Property>): seq<string> {
    seq(|entries|, i requires 0 <= i < |entries| => entries[i].key)
  }

  lemma KeysOfAre(entries: seq<Property>, k: string)
    ensures k in KeysOf(entries) <==> exists p :: p in entries && p.key == k
  {
    if k in KeysOf(entries) {
      var i :| 0 <= i < |entries| && KeysOf(entries)[i] == k;
      assert entries[i] in entries;
    }
    if p :| p in entries && p.key == k {
      var i :| 0 <= i < |entries| && entries[i] == p;
      assert KeysOf(entries)[i] == k;
    }
  }

  lemma EntriesListMembers(props: seq<Property>)
    requires DistinctKeys(props)
    ensures KeysOf(SortByKey(Defined(props))) == SortedKeys(NormalMembers(props).Keys)
  {
    var entries, names := SortByKey(Defined(props)), NormalMembers(props).Keys;
    DefinedAreDistinct(props);
    SortByKeySorts(Defined(props));
    MembersAreDefined(props);
    var keys := KeysOf(entries);
    hide KeysOf;
    forall k ensures k in keys <==> k in names {
      KeysOfAre(entries, k);
      if p :| p in props && p.key == k && p.value != Undefined { assert p in entries; }
      if p :| p in entries && p.key == k { assert p in props && p.value != Undefined; }
    }
    SortedListingIsUnique(keys, SortedKeys(names), names);
  }

  /** The canonical text is the JSON text of the normal form. */
  lemma {:induction false} CanonicalIsPrintedNormal(v: Value)
    requires WellFormed(v)
    ensures Canonicalize(v) == Print(Normalize(v))
    ensures Printable(Normalize(v))
    decreases v
  {
    match v
    case Array(elems) =>
      forall i | 0 <= i < |elems|
        ensures Canonicalize(elems[i]) == Print(Normalize(elems[i])) && Printable(Normalize(elems[i]))
      {
        assert elems[i] in elems;
        CanonicalIsPrintedNormal(elems[i]);
      }
      var parts := seq(|elems|, i requires 0 <= i < |elems| => Canonicalize(elems[i]));
      JoinsElements(Normalize(v).elems, parts);
    case Object(props) =>
      forall p | p in props
        ensures Canonicalize(p.value) == Print(Normalize(p.value)) && Printable(Normalize(p.value))
      {
        CanonicalIsPrintedNormal(p.value);
      }
      ObjectIsPrintedNormal(props);
    case Date(_) =>
      var none: set<string> := {};
      ListsNothing(SortedKeys(none), none);
      assert Normalize(v).members.Keys == none;
    case _ =>
  }

  lemma ObjectIsPrintedNormal(props: seq<Property>)
    requires WellFormed(Object(props))
    requires forall p :: p in props ==>
               Canonicalize(p.value) == Print(Normalize(p.value)) && Printable(Normalize(p.value))
    ensures Canonicalize(Object(props)) == Print(Normalize(Object(props)))
    ensures Printable(Normalize(Object(props)))
  {
    var j := Normalize(Object(props));
    var entries := SortByKey(Defined(props));
    MembersAreDefined(props);
    EntriesListMembers(props);
    var keys := SortedKeys(j.members.Keys);
    var parts := seq(|entries|, i requires 0 <= i < |entries| =>
                       assert entries[i] in props;
                       Quote(entries[i].key) + ":" + Canonicalize(entries[i].value));
    forall i | 0 <= i < |keys| ensures parts[i] == Member(j, keys[i]) {
      assert keys[i] == KeysOf(entries)[i] == entries[i].key && entries[i] in entries;
    }
    JoinsMembers(j, keys, parts);
  }

  /**
   * Two values have the same canonical text exactly when they have the same
   * normal form, at every nesting depth and whatever the order of their keys.
   */
  lemma CanonicalizeIsInjectiveOnNormalForms(v: Value, w: Value)
    requires WellFormed(v) && WellFormed(w)
    ensures Canonicalize(v) == Canonicalize(w) <==> Normalize(v) == Normalize(w)
  {
    CanonicalIsPrintedNormal(v);
    CanonicalIsPrintedNormal(w);
    if Canonicalize(v) == Canonicalize(w) {
      PrintIsInjective(Normalize(v), Normalize(w));
    }
  }

  /** Listing the same properties in another order changes nothing. */
  lemma KeyOrderIsIgnored(props: seq<Property>, reordered: seq<Property>)
    requires DistinctKeys(props) && DistinctKeys(reordered)
    requires forall p :: p in props <==> p in reordered
    ensures Normalize(Object(props)) == Normalize(Object(reordered))
  {
    MembersAreDefined(props);
    MembersAreDefined(reordered);
    var a, b := NormalMembers(props), NormalMembers(reordered);
    forall k ensures k in a <==> k in b {
      if k in a { var p :| p in props && p.key == k && p.value != Undefined; }
      if k in b { var p :| p in reordered && p.key == k && p.value != Undefined; }
    }
    forall k | k in a ensures a[k] == b[k] {
      var p :| p in props && p.key == k && p.value != Undefined;
    }
    assert a == b;
  }

  // ------------------------------------------------------ through JSON.stringify and back

  /** What JSON.stringify writes: nothing for undefined and functions, text for dates. */
  function Stringified(v: Value): Option<Json>
    decreases v, 1
  {
    match v
    case Undefined => None
    case Function => None
    case Null => Some(JNull)
    case Bool(b) => Some(JBool(b))
    case Number(NonFinite) => Some(JNull)
    case Number(Finite(text)) => Some(JNumber(text))
    case Text(s) => Some(JString(s))
    case Date(iso) => Some(JString(iso))
    case Array(elems) => Some(JArray(seq(|elems|, i requires 0 <= i < |elems| => OrNull(Stringified(elems[i])))))
    case Object(props) => Some(JObject(StringifiedMembers(props)))
  }

  function OrNull(j: Option<Json>): Json {
    if j.Some? then j.value else JNull
  }

  function StringifiedMembers(props: seq<Property>): map<string, Json>
    decreases props, 0
  {
    if props == [] then map[]
    else
      var rest := StringifiedMembers(props[1..]);
      match Stringified(props[0].value)
      case None => rest
      case Some(j) => rest[props[0].key := j]
  }

  /** No dates anywhere, and no function as a property. */
  predicate IsPlain(v: Value) {
    match v
    case Date(_) => false
    case Array(elems) => forall e :: e in elems ==> IsPlain(e)
    case Object(props) => forall p :: p in props ==> p.value != Function && IsPlain(p.value)
    case _ => true
  }

  /**
   * What is stored is what is hashed exactly for plain values: a date is hashed
   * as an empty object but stored as text, and a function property is hashed as
   * null but not stored.
   */
  lemma {:induction false} StoredAsHashed(v: Value)
    requires WellFormed(v)
    ensures OrNull(Stringified(v)) == Normalize(v) <==> IsPlain(v)
    decreases v, 1
  {
    match v
    case Array(elems) =>
      forall i | 0 <= i < |elems| ensures OrNull(Stringified(elems[i])) == Normalize(elems[i]) <==> IsPlain(elems[i]) {
        assert elems[i] in elems;
        StoredAsHashed(elems[i]);
      }
      var a, b := OrNull(Stringified(v)).elems, Normalize(v).elems;
      if forall e :: e in elems ==> IsPlain(e) {
        assert a == b;
      }
      if a == b {
        forall e | e in elems ensures IsPlain(e) {
          var i :| 0 <= i < |elems| && elems[i] == e;
          assert a[i] == b[i];
        }
      }
    case Object(props) =>
      MembersStoredAsHashed(props);
    case _ =>
  }

  function With(m: map<string, Json>, k: string, j: Option<Json>): map<string, Json> {
    if j.Some? then m[k := j.value] else m
  }

  lemma WithSame(a: map<string, Json>, b: map<string, Json>, k: string, x: Option<Json>, y: Option<Json>)
    requires k !in a && k !in b
    ensures With(a, k, x) == With(b, k, y) <==> a == b && x == y
  {
    var a', b' := With(a, k, x), With(b, k, y);
    assert a == a' - {k} && b == b' - {k};
    assert x.Some? ==> k in a' && a'[k] == x.value;
    assert y.Some? ==> k in b' && b'[k] == y.value;
  }

  lemma {:induction false} StringifiedKeys(props: seq<Property>, k: string)
    requires k in StringifiedMembers(props)
    ensures exists p :: p in props && p.key == k
  {
    assert props == [props[0]] + props[1..];
    if k != props[0].key {
      StringifiedKeys(props[1..], k);
      var p :| p in props[1..] && p.key == k;
      assert p in props;
    }
  }

  lemma {:induction false} MembersStoredAsHashed(props: seq<Property>)
    requires DistinctKeys(props) && forall p :: p in props ==> WellFormed(p.value)
    ensures StringifiedMembers(props) == NormalMembers(props) <==>
            forall p :: p in props ==> p.value != Function && IsPlain(p.value)
    decreases props, 0
  {
    if props != [] {
      var first, rest := props[0], props[1..];
      TailIsDistinct(props);
      MembersStoredAsHashed(rest);
      StoredAsHashed(first.value);
      MembersAreDefined(rest);
      var a, b := StringifiedMembers(rest), NormalMembers(rest);
      if first.key in a { StringifiedKeys(rest, first.key); }
      var x := Stringified(first.value);
      var y := if first.value == Undefined then None else Some(Normalize(first.value));
      hide IsPlain, Stringified, Normalize;
      WithSame(a, b, first.key, x, y);
      assert StringifiedMembers(props) == With(a, first.key, x) && NormalMembers(props) == With(b, first.key, y);
      StoredOrNot(first.value);
    }
  }

  lemma StoredOrNot(v: Value)
    ensures Stringified(v).None? <==> v == Undefined || v == Function
  {
  }
}
