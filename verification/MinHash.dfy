/**
 * MinHash fingerprints, packages/core/src/security/crypto.ts:124-190.
 *
 * Splitting a text into tokens, SHA-256 and the rounding of a product of doubles
 * are parameters: a fingerprint is a function of the tokens, of a base hash, and
 * of the number that `a * base + b` rounds to in each slot.
 */
module MinHash {
  import opened Basics

  const PERMUTATIONS := 32
  const MERSENNE_PRIME := 2147483647

  /** What each permutation does to a feature: its base hash, and `a * base + b` as doubles give it. */
  datatype Hashing = Hashing(base: string -> nat, mix: (nat, nat) -> nat)

  function Value(h: Hashing, slot: nat, feature: string): (v: nat)
    ensures v < MERSENNE_PRIME
  {
    h.mix(slot, h.base(feature) % MERSENNE_PRIME) % MERSENNE_PRIME
  }

  function Bigram(tokens: seq<string>, i: nat): string
    requires i + 1 < |tokens|
  {
    tokens[i] + "_" + tokens[i + 1]
  }

  /** The pairs of neighbours among the first `n` tokens. */
  ghost function Pairs(tokens: seq<string>, n: nat): set<string>
    requires n <= |tokens|
  {
    set i | 0 <= i < n - 1 :: Bigram(tokens, i)
  }

  ghost function Features(tokens: seq<string>): set<string> {
    (set t | t in tokens) + Pairs(tokens, |tokens|)
  }

  /** The tokens and the pairs of neighbours. */
  method FeatureSet(tokens: seq<string>) returns (features: set<string>)
    ensures features == Features(tokens)
    ensures forall f :: f in features <==>
              f in tokens || exists i :: 0 <= i < |tokens| - 1 && f == tokens[i] + "_" + tokens[i + 1]
  {
    features := set t | t in tokens;
    var i := 0;
    while i + 1 < |tokens|
      invariant 0 <= i && (i < |tokens| || tokens == [])
      invariant features == (set t | t in tokens) + Pairs(tokens, if tokens == [] then 0 else i + 1)
    {
      features := features + {Bigram(tokens, i)};
      i := i + 1;
    }
    PairsAreNeighbours(tokens);
  }

  lemma PairsAreNeighbours(tokens: seq<string>)
    ensures forall f :: f in Features(tokens) <==>
              f in tokens || exists i :: 0 <= i < |tokens| - 1 && f == tokens[i] + "_" + tokens[i + 1]
  {
    forall i | 0 <= i < |tokens| - 1
      ensures tokens[i] + "_" + tokens[i + 1] == Bigram(tokens, i)
    {
    }
  }

  // ------------------------------------------------------------------------- signatures

  /** `v` is the least value of any of the features in this slot, or the filler when there is none. */
  ghost predicate IsLeast(h: Hashing, slot: nat, features: set<string>, v: nat) {
    && v <= MERSENNE_PRIME
    && (forall f :: f in features ==> v <= Value(h, slot, f))
    && (v == MERSENNE_PRIME || IsAttained(h, slot, features, v))
  }

  ghost predicate IsAttained(h: Hashing, slot: nat, features: set<string>, v: nat) {
    exists f :: f in features && v == Value(h, slot, f)
  }

  ghost predicate IsSignature(h: Hashing, features: set<string>, s: seq<nat>) {
    |s| == PERMUTATIONS && forall i :: 0 <= i < PERMUTATIONS ==> IsLeast(h, i, features, s[i])
  }

  /** The features determine the signature, so the order in which a set is walked cannot matter. */
  lemma SignatureIsUnique(h: Hashing, features: set<string>, s: seq<nat>, t: seq<nat>)
    requires IsSignature(h, features, s) && IsSignature(h, features, t)
    ensures s == t
  {
    forall i | 0 <= i < PERMUTATIONS
      ensures s[i] == t[i]
    {
      LeastIsUnique(h, i, features, s[i], t[i]);
    }
  }

  lemma LeastIsUnique(h: Hashing, slot: nat, features: set<string>, v: nat, w: nat)
    requires IsLeast(h, slot, features, v) && IsLeast(h, slot, features, w)
    ensures v == w
  {
    if v != MERSENNE_PRIME {
      var f :| f in features && v == Value(h, slot, f);
      assert w <= v;
    }
    if w != MERSENNE_PRIME {
      var f :| f in features && w == Value(h, slot, f);
      assert v <= w;
    }
  }

  /** Every slot of a text with features holds a value below the prime. */
  lemma SlotsAreValues(h: Hashing, features: set<string>, s: seq<nat>, i: nat)
    requires IsSignature(h, features, s) && i < PERMUTATIONS && features != {}
    ensures s[i] < MERSENNE_PRIME
  {
    assert IsLeast(h, i, features, s[i]);
    var f :| f in features;
    assert s[i] <= Value(h, i, f);
  }

  /** There are 32 slots, and each holds the least of what its own permutation makes of the features. */
  lemma SlotsAreLeastPermuted(h: Hashing, features: set<string>, s: seq<nat>, i: nat)
    requires IsSignature(h, features, s) && features != {}
    ensures |s| == 32
    ensures i < 32 ==>
              && (exists f :: f in features && s[i] == h.mix(i, h.base(f) % 2147483647) % 2147483647)
              && (forall f :: f in features ==> s[i] <= h.mix(i, h.base(f) % 2147483647) % 2147483647)
  {
    if i < 32 {
      SlotsAreValues(h, features, s, i);
      assert IsLeast(h, i, features, s[i]);
      var f :| f in features && s[i] == Value(h, i, f);
      forall g | g in features
        ensures s[i] <= h.mix(i, h.base(g) % 2147483647) % 2147483647
      {
        assert s[i] <= Value(h, i, g);
      }
    }
  }

  function SlotwiseMin(s: seq<nat>, t: seq<nat>): (r: seq<nat>)
    requires |s| == |t|
    ensures |r| == |s|
    ensures forall i :: 0 <= i < |s| ==> r[i] == if s[i] <= t[i] then s[i] else t[i]
  {
    seq(|s|, i requires 0 <= i < |s| => if s[i] <= t[i] then s[i] else t[i])
  }

  /** The signature of a union is the slotwise minimum of the signatures. */
  lemma UnionIsSlotwiseMin(h: Hashing, a: set<string>, b: set<string>, s: seq<nat>, t: seq<nat>)
    requires IsSignature(h, a, s) && IsSignature(h, b, t)
    ensures IsSignature(h, a + b, SlotwiseMin(s, t))
  {
    forall i | 0 <= i < PERMUTATIONS
      ensures IsLeast(h, i, a + b, SlotwiseMin(s, t)[i])
    {
      LeastOfUnion(h, i, a, b, s[i], t[i]);
    }
  }

  lemma LeastOfUnion(h: Hashing, slot: nat, a: set<string>, b: set<string>, v: nat, w: nat)
    requires IsLeast(h, slot, a, v) && IsLeast(h, slot, b, w)
    ensures IsLeast(h, slot, a + b, if v <= w then v else w)
  {
    if v <= w {
      if v != MERSENNE_PRIME {
        var f :| f in a && v == Value(h, slot, f);
        assert f in a + b;
      }
    } else {
      var f :| f in b && w == Value(h, slot, f);
      assert f in a + b;
    }
  }

  // --------------------------------------------------------------------------- hex text

  function ToHex(v: nat): (s: string)
    ensures s != ""
  {
    if v < 16 then [HEX_DIGITS[v]] else ToHex(v / 16) + [HEX_DIGITS[v % 16]]
  }

  function PadStart(s: string, width: nat, c: char): (r: string)
    ensures |r| == if |s| >= width then |s| else width
  {
    if |s| >= width then s else seq(width - |s|, _ => c) + s
  }

  function DigitValue(c: char): nat {
    if '0' <= c <= '9' then (c - '0') as nat
    else if 'a' <= c <= 'f' then (c - 'a') as nat + 10
    else 0
  }

  function FromHex(s: string): nat {
    if s == "" then 0 else FromHex(s[..|s| - 1]) * 16 + DigitValue(s[|s| - 1])
  }

  function Power16(n: nat): (r: nat)
    ensures r >= 1
  {
    if n == 0 then 1 else 16 * Power16(n - 1)
  }

  lemma DigitReadsBack(d: nat)
    requires d < 16
    ensures DigitValue(HEX_DIGITS[d]) == d
  {
  }

  lemma {:induction false} HexReadsBack(v: nat)
    ensures FromHex(ToHex(v)) == v
  {
    hide DigitValue;
    DigitReadsBack(v % 16);
    if v < 16 {
      assert ToHex(v)[..0] == "";
    } else {
      HexReadsBack(v / 16);
      assert ToHex(v)[..|ToHex(v)| - 1] == ToHex(v / 16);
    }
  }

  lemma {:induction false} HexIsShort(v: nat, n: nat)
    requires v < Power16(n) && n > 0
    ensures |ToHex(v)| <= n
  {
    assert Power16(1) == 16;
    if v >= 16 && n > 1 {
      HexIsShort(v / 16, n - 1);
    }
  }

  lemma {:induction false} LeadingZerosAreWorthNothing(n: nat, s: string)
    ensures FromHex(seq(n, _ => '0') + s) == FromHex(s)
  {
    var zeros := seq(n, _ => '0');
    if s != "" {
      LeadingZerosAreWorthNothing(n, s[..|s| - 1]);
      assert (zeros + s)[..|zeros + s| - 1] == zeros + s[..|s| - 1];
    } else if n > 0 {
      LeadingZerosAreWorthNothing(n - 1, s);
      assert (zeros + s)[..n - 1] == seq(n - 1, _ => '0') + s;
    }
  }

  function SlotText(v: nat): string {
    PadStart(ToHex(v), 8, '0')
  }

  /** A slot is eight digits, and they read back as its value. */
  lemma SlotTextReadsBack(v: nat)
    requires v <= MERSENNE_PRIME
    ensures |SlotText(v)| == 8 && FromHex(SlotText(v)) == v
  {
    assert Power16(8) == 4294967296 by {
      assert Power16(4) == 65536;
      assert Power16(6) == 16777216;
    }
    HexIsShort(v, 8);
    HexReadsBack(v);
    LeadingZerosAreWorthNothing(8 - |ToHex(v)|, ToHex(v));
  }

  function Encode(s: seq<nat>): string {
    if s == [] then "" else Encode(s[..|s| - 1]) + SlotText(s[|s| - 1])
  }

  ghost predicate SlotsFit(s: seq<nat>) {
    forall i :: 0 <= i < |s| ==> s[i] <= MERSENNE_PRIME
  }

  lemma {:induction false} EncodedSlot(s: seq<nat>, i: nat)
    requires SlotsFit(s) && i < |s|
    ensures |Encode(s)| == 8 * |s| && Encode(s)[8 * i..8 * i + 8] == SlotText(s[i])
  {
    hide SlotText, FromHex;
    var init, last := s[..|s| - 1], s[|s| - 1];
    SlotTextReadsBack(last);
    EncodedLength(init);
    if i < |s| - 1 {
      EncodedSlot(init, i);
      assert Encode(s)[8 * i..8 * i + 8] == Encode(init)[8 * i..8 * i + 8];
    }
  }

  lemma {:induction false} EncodedLength(s: seq<nat>)
    requires SlotsFit(s)
    ensures |Encode(s)| == 8 * |s|
  {
    if s != [] {
      EncodedLength(s[..|s| - 1]);
      SlotTextReadsBack(s[|s| - 1]);
    }
  }

  // ------------------------------------------------------------------------ fingerprints

  function Zeros(n: nat): string {
    seq(n, _ => '0')
  }

  /** A text without features gets zeros; any other the eight-digit slots of its signature. */
  ghost predicate IsFingerprint(h: Hashing, features: set<string>, text: string) {
    if features == {} then text == Zeros(8 * PERMUTATIONS)
    else exists s :: IsSignature(h, features, s) && text == Encode(s)
  }

  method ContentFingerprint(h: Hashing, tokens: seq<string>) returns (text: string)
    ensures IsFingerprint(h, Features(tokens), text) && |text| == 256
  {
    hide IsLeast, Encode, Features;
    var found := FeatureSet(tokens);
    if found == {} {
      return seq(8 * PERMUTATIONS, _ => '0');
    }
    var signature := new nat[PERMUTATIONS](_ => MERSENNE_PRIME);
    var rest, seen := found, {};
    NothingSeen(h);
    while rest != {}
      invariant rest + seen == found && rest !! seen
      invariant forall i :: 0 <= i < PERMUTATIONS ==> IsLeast(h, i, seen, signature[i])
      decreases |rest|
    {
      var feature :| feature in rest;
      Absorb(h, signature, seen, feature);
      rest, seen := rest - {feature}, seen + {feature};
    }
    assert seen == found;
    text := Render(signature);
    assert IsSignature(h, found, signature[..]);
    LeastValuesFit(h, found, signature[..]);
    EncodedLength(signature[..]);
  }

  lemma NothingSeen(h: Hashing)
    ensures forall i :: 0 <= i < PERMUTATIONS ==> IsLeast(h, i, {}, MERSENNE_PRIME)
  {
  }

  /** Every slot in eight digits, one after the other. */
  method Render(signature: array<nat>) returns (text: string)
    ensures text == Encode(signature[..])
  {
    text := "";
    for i := 0 to signature.Length
      invariant text == Encode(signature[..i])
    {
      assert signature[..i + 1][..i] == signature[..i];
      text := text + PadStart(ToHex(signature[i]), 8, '0');
    }
    assert signature[..signature.Length] == signature[..];
  }

  /** The inner loop: one feature lowers the slots in which it is smaller. */
  method Absorb(h: Hashing, signature: array<nat>, ghost seen: set<string>, feature: string)
    requires signature.Length == PERMUTATIONS
    requires forall i :: 0 <= i < PERMUTATIONS ==> IsLeast(h, i, seen, signature[i])
    modifies signature
    ensures forall i :: 0 <= i < PERMUTATIONS ==> IsLeast(h, i, seen + {feature}, signature[i])
  {
    for i := 0 to PERMUTATIONS
      invariant forall j :: 0 <= j < i ==> IsLeast(h, j, seen + {feature}, signature[j])
      invariant forall j :: i <= j < PERMUTATIONS ==> signature[j] == old(signature[j])
    {
      var value := Value(h, i, feature);
      OneMoreFeature(h, i, seen, feature, signature[i]);
      if value < signature[i] {
        signature[i] := value;
      }
    }
  }

  lemma OneMoreFeature(h: Hashing, slot: nat, seen: set<string>, feature: string, v: nat)
    requires IsLeast(h, slot, seen, v)
    ensures var w := Value(h, slot, feature); IsLeast(h, slot, seen + {feature}, if w < v then w else v)
  {
    var w := Value(h, slot, feature);
    assert feature in seen + {feature};
    if v <= w {
      var f :| f in seen && v == Value(h, slot, f);
      assert f in seen + {feature};
    }
  }

  function SlotEqual(a: string, b: string, i: nat): nat
    requires 8 * i + 8 <= |a| == |b|
  {
    if a[8 * i..8 * i + 8] == b[8 * i..8 * i + 8] then 1 else 0
  }

  function Matches(a: string, b: string, slots: nat): nat
    requires 8 * slots <= |a| == |b|
  {
    if slots == 0 then 0 else Matches(a, b, slots - 1) + SlotEqual(a, b, slots - 1)
  }

  function Similarity(a: string, b: string): real {
    if |a| != |b| || |a| == 0 || |a| % 8 != 0 then 0.0 else Matches(a, b, |a| / 8) as real / (|a| / 8) as real
  }

  /** The fraction of equal slots; texts of unequal or odd length, and empty ones, have nothing in common. */
  method FingerprintSimilarity(a: string, b: string) returns (r: real)
    ensures r == Similarity(a, b) && 0.0 <= r <= 1.0
    ensures |a| != |b| || |a| == 0 || |a| % 8 != 0 ==> r == 0.0
    ensures |a| == |b| && |a| > 0 && |a| % 8 == 0 ==> r == |SlotsAlike(a, b, |a| / 8)| as real / (|a| / 8) as real
    ensures |a| == |b| && |a| > 0 && |a| % 8 == 0 ==> (r == 1.0 <==> a == b)
  {
    if |a| != |b| || |a| == 0 {
      return 0.0;
    }
    if |a| % 8 != 0 {
      return 0.0;
    }
    var slots := |a| / 8;
    var matches := 0;
    for i := 0 to slots
      invariant matches == Matches(a, b, i) <= i
      invariant matches == i <==> a[..8 * i] == b[..8 * i]
    {
      SlotExtends(a, b, i);
      if a[8 * i..8 * i + 8] == b[8 * i..8 * i + 8] {
        matches := matches + 1;
      }
    }
    assert a[..8 * slots] == a && b[..8 * slots] == b;
    MatchesAreCounted(a, b, slots);
    r := matches as real / slots as real;
    FractionBounds(matches, slots);
  }

  /** The slots, of eight characters each, in which the two texts are the same. */
  ghost function SlotsAlike(a: string, b: string, slots: nat): set<nat>
    requires 8 * slots <= |a| == |b|
  {
    set i: nat | i < slots && a[8 * i..8 * i + 8] == b[8 * i..8 * i + 8]
  }

  lemma {:induction false} MatchesAreCounted(a: string, b: string, slots: nat)
    requires 8 * slots <= |a| == |b|
    ensures |SlotsAlike(a, b, slots)| == Matches(a, b, slots)
  {
    if slots == 0 {
      assert SlotsAlike(a, b, slots) == {};
    } else {
      MatchesAreCounted(a, b, slots - 1);
      OneMoreSlot(a, b, slots - 1);
    }
  }

  lemma OneMoreSlot(a: string, b: string, n: nat)
    requires 8 * n + 8 <= |a| == |b|
    ensures |SlotsAlike(a, b, n + 1)| == |SlotsAlike(a, b, n)| + SlotEqual(a, b, n)
  {
    var before, after := SlotsAlike(a, b, n), SlotsAlike(a, b, n + 1);
    assert n !in before;
    assert forall i :: i in after <==> i in before || (i == n && SlotEqual(a, b, n) == 1);
    if SlotEqual(a, b, n) == 1 {
      assert after == before + {n};
    } else {
      assert after == before;
    }
  }

  lemma SlotExtends(a: string, b: string, i: nat)
    requires 8 * i + 8 <= |a| == |b|
    ensures a[..8 * i + 8] == b[..8 * i + 8] <==> a[..8 * i] == b[..8 * i] && a[8 * i..8 * i + 8] == b[8 * i..8 * i + 8]
  {
    assert a[..8 * i + 8] == a[..8 * i] + a[8 * i..8 * i + 8];
    assert b[..8 * i + 8] == b[..8 * i] + b[8 * i..8 * i + 8];
  }

  lemma FractionBounds(m: nat, n: nat)
    requires m <= n && n > 0
    ensures 0.0 <= m as real / n as real <= 1.0
    ensures m as real / n as real == 1.0 <==> m == n
  {
  }

  function EqualSlots(s: seq<nat>, t: seq<nat>, n: nat): nat
    requires n <= |s| == |t|
  {
    if n == 0 then 0 else EqualSlots(s, t, n - 1) + if s[n - 1] == t[n - 1] then 1 else 0
  }

  lemma {:induction false} MatchesAreEqualSlots(s: seq<nat>, t: seq<nat>, n: nat)
    requires SlotsFit(s) && SlotsFit(t) && n <= |s| == |t|
    ensures |Encode(s)| == |Encode(t)| == 8 * |s|
    ensures Matches(Encode(s), Encode(t), n) == EqualSlots(s, t, n)
  {
    hide Encode, SlotText, FromHex, SlotEqual;
    EncodedLength(s);
    EncodedLength(t);
    if n > 0 {
      MatchesAreEqualSlots(s, t, n - 1);
      SlotMatches(s, t, n - 1);
    }
  }

  lemma SlotMatches(s: seq<nat>, t: seq<nat>, i: nat)
    requires SlotsFit(s) && SlotsFit(t) && i < |s| == |t|
    ensures |Encode(s)| == |Encode(t)| == 8 * |s|
    ensures SlotEqual(Encode(s), Encode(t), i) == if s[i] == t[i] then 1 else 0
  {
    hide Encode, SlotText, FromHex;
    EncodedSlot(s, i);
    EncodedSlot(t, i);
    SlotTextReadsBack(s[i]);
    SlotTextReadsBack(t[i]);
  }

  /** The similarity of two fingerprints is the fraction of slots whose least values coincide. */
  lemma SimilarityIsFractionOfEqualMinima(h: Hashing, a: set<string>, b: set<string>, s: seq<nat>, t: seq<nat>)
    requires IsSignature(h, a, s) && IsSignature(h, b, t)
    ensures Similarity(Encode(s), Encode(t)) == EqualSlots(s, t, PERMUTATIONS) as real / PERMUTATIONS as real
  {
    hide Encode, IsSignature, SlotsFit;
    LeastValuesFit(h, a, s);
    LeastValuesFit(h, b, t);
    MatchesAreEqualSlots(s, t, PERMUTATIONS);
  }

  lemma LeastValuesFit(h: Hashing, features: set<string>, s: seq<nat>)
    requires IsSignature(h, features, s)
    ensures SlotsFit(s) && |s| == PERMUTATIONS
  {
    forall i | 0 <= i < |s|
      ensures s[i] <= MERSENNE_PRIME
    {
      assert IsLeast(h, i, features, s[i]);
    }
  }

  /** A fingerprint is a function of the features alone. */
  lemma FingerprintIsDetermined(h: Hashing, features: set<string>, a: string, b: string)
    requires IsFingerprint(h, features, a) && IsFingerprint(h, features, b)
    ensures a == b
  {
    if features != {} {
      var s :| IsSignature(h, features, s) && a == Encode(s);
      var t :| IsSignature(h, features, t) && b == Encode(t);
      SignatureIsUnique(h, features, s, t);
    }
  }
}
