/** The hash chain of packages/core/src/audit/ledger.ts. SHA-256 is a parameter. */
module AuditChain {
  import opened Wrappers
  import opened Values
  import opened JsonText
  import opened Canonical

  type Hash = string -> string

  const ZEROS_8 := "00000000"
  const GENESIS_HASH := ZEROS_8 + ZEROS_8 + ZEROS_8 + ZEROS_8 + ZEROS_8 + ZEROS_8 + ZEROS_8 + ZEROS_8

  datatype Input = Input(
    actor: string, actorType: string, action: string, resourceType: string, resourceId: Option<string>,
    detail: seq<Property>, ipAddress: Option<string>, userAgent: Option<string>, traceId: Option<string>,
    outcome: string)

  datatype Entry = Entry(input: Input, sequence: int, recordedAt: string, prevHash: string, entryHash: string)

  // ------------------------------------------------------------- decimal text of integers

  function DigitChar(d: nat): (c: char)
    requires d < 10
  {
    (d + 48) as char
  }

  function NatText(n: nat): string {
    if n < 10 then [DigitChar(n)] else NatText(n / 10) + [DigitChar(n % 10)]
  }

  function IntText(n: int): string {
    if n < 0 then "-" + NatText(-n) else NatText(n)
  }

  lemma {:induction false} NatTextIsDigits(n: nat)
    ensures NatText(n) != "" && forall i :: 0 <= i < |NatText(n)| ==> '0' <= NatText(n)[i] <= '9'
  {
    if n >= 10 { NatTextIsDigits(n / 10); }
  }

  lemma {:induction false} NatTextIsInjective(m: nat, n: nat)
    requires NatText(m) == NatText(n)
    ensures m == n
  {
    var a, b := NatText(m), NatText(n);
    assert a[|a| - 1] == DigitChar(m % 10) && b[|b| - 1] == DigitChar(n % 10);
    if m >= 10 { NatTextIsDigits(m / 10); }
    if n >= 10 { NatTextIsDigits(n / 10); }
    if m >= 10 && n >= 10 {
      assert a[..|a| - 1] == NatText(m / 10) && b[..|b| - 1] == NatText(n / 10);
      NatTextIsInjective(m / 10, n / 10);
    }
  }

  lemma IntTextIsInjective(m: int, n: int)
    requires IntText(m) == IntText(n)
    ensures m == n
  {
    var p, q := (if m < 0 then -m else m), (if n < 0 then -n else n);
    NatTextIsDigits(p);
    NatTextIsDigits(q);
    var a, b := IntText(m), IntText(n);
    assert m < 0 ==> a[0] == '-' && a[1..] == NatText(p);
    assert n < 0 ==> b[0] == '-' && b[1..] == NatText(q);
    NatTextIsInjective(p, q);
  }

  lemma IntTextIsNumeral(n: int)
    ensures IsNumeral(IntText(n))
  {
    NatTextIsDigits(if n < 0 then -n else n);
  }

  // ------------------------------------------------------------------- hashing an entry

  function TextOrNull(t: Option<string>): Value {
    if t.Some? then Text(t.value) else Null
  }

  /** The object that is hashed: neither the IP address nor the user agent is in it. */
  function HashedProps(e: Entry): seq<Property> {
    [Property("sequence", Value.Number(Finite(IntText(e.sequence)))),
     Property("recordedAt", Text(e.recordedAt)),
     Property("actor", Text(e.input.actor)),
     Property("actorType", Text(e.input.actorType)),
     Property("action", Text(e.input.action)),
     Property("resourceType", Text(e.input.resourceType)),
     Property("resourceId", TextOrNull(e.input.resourceId)),
     Property("detail", Object(e.input.detail)),
     Property("outcome", Text(e.input.outcome)),
     Property("traceId", TextOrNull(e.input.traceId)),
     Property("prevHash", Text(e.prevHash))]
  }

  function ComputeEntryHash(h: Hash, e: Entry): string {
    h(Canonicalize(Object(HashedProps(e))))
  }

  function SealEntry(h: Hash, input: Input, sequence: int, prevHash: string, now: string): Entry {
    var partial := Entry(input, sequence, now, prevHash, "");
    partial.(entryHash := ComputeEntryHash(h, partial))
  }

  /** The two entries agree on every hashed field; details agree as JSON values. */
  predicate SameHashedFields(a: Entry, b: Entry) {
    && a.sequence == b.sequence && a.recordedAt == b.recordedAt && a.prevHash == b.prevHash
    && a.input.actor == b.input.actor && a.input.actorType == b.input.actorType && a.input.action == b.input.action
    && a.input.resourceType == b.input.resourceType && a.input.resourceId == b.input.resourceId
    && a.input.outcome == b.input.outcome && a.input.traceId == b.input.traceId
    && Normalize(Object(a.input.detail)) == Normalize(Object(b.input.detail))
  }

  ghost predicate DetailOk(e: Entry) {
    WellFormed(Object(e.input.detail))
  }

  lemma HashedKeysDiffer(e: Entry)
    ensures DistinctKeys(HashedProps(e))
  {
    var props := HashedProps(e);
    assert props[1].key[2] == 'c' && props[6].key[2] == 's' && props[0].key[0] == 's' && props[10].key[0] == 'p';
    assert props[4].key[1] == 'c' && props[7].key[0] == 'd' && props[8].key[0] == 'o' && props[9].key[0] == 't';
  }

  lemma HashedPropsAreWellFormed(e: Entry)
    requires DetailOk(e)
    ensures WellFormed(Object(HashedProps(e)))
  {
    HashedKeysDiffer(e);
    IntTextIsNumeral(e.sequence);
  }

  /** The canonical text of the hashed object determines the hashed fields, and is determined by them. */
  lemma HashedTextDecidesFields(a: Entry, b: Entry)
    requires DetailOk(a) && DetailOk(b)
    ensures Canonicalize(Object(HashedProps(a))) == Canonicalize(Object(HashedProps(b))) <==> SameHashedFields(a, b)
  {
    hide HashedProps, NormalMembers, Canonicalize, SameHashedFields, WellFormed, DistinctKeys;
    SameShape(a, b);
    HashedPropsAreWellFormed(a);
    HashedPropsAreWellFormed(b);
    CanonicalizeIsInjectiveOnNormalForms(Object(HashedProps(a)), Object(HashedProps(b)));
    HashedKeysDiffer(a);
    HashedKeysDiffer(b);
    SameMembersSameValues(HashedProps(a), HashedProps(b));
    FieldsByPosition(a, b);
    assert Normalize(Object(HashedProps(a))) == JObject(NormalMembers(HashedProps(a)));
    assert Normalize(Object(HashedProps(b))) == JObject(NormalMembers(HashedProps(b)));
    if forall i :: 0 <= i < 11 ==> AgreeAt(a, b, i) {
      forall i | 0 <= i < |HashedProps(a)|
        ensures Normalize(HashedProps(a)[i].value) == Normalize(HashedProps(b)[i].value)
      {
        assert AgreeAt(a, b, i);
      }
    }
  }

  lemma SameShape(a: Entry, b: Entry)
    ensures |HashedProps(a)| == |HashedProps(b)| == 11
    ensures forall i :: 0 <= i < 11 ==>
              && HashedProps(a)[i].key == HashedProps(b)[i].key
              && HashedProps(a)[i].value != Undefined && HashedProps(b)[i].value != Undefined
  {
  }

  ghost predicate AgreeAt(a: Entry, b: Entry, i: nat)
    requires i < 11
  {
    Normalize(HashedProps(a)[i].value) == Normalize(HashedProps(b)[i].value)
  }

  lemma SequenceAndDetailAt(a: Entry, b: Entry)
    ensures AgreeAt(a, b, 0) <==> a.sequence == b.sequence
    ensures AgreeAt(a, b, 7) <==> Normalize(Object(a.input.detail)) == Normalize(Object(b.input.detail))
  {
    hide IntText;
    if AgreeAt(a, b, 0) { IntTextIsInjective(a.sequence, b.sequence); }
  }

  lemma TextsAt(a: Entry, b: Entry)
    ensures AgreeAt(a, b, 1) <==> a.recordedAt == b.recordedAt
    ensures AgreeAt(a, b, 2) <==> a.input.actor == b.input.actor
  {
    hide IntText;
  }

  lemma ActionTextsAt(a: Entry, b: Entry)
    ensures AgreeAt(a, b, 3) <==> a.input.actorType == b.input.actorType
    ensures AgreeAt(a, b, 4) <==> a.input.action == b.input.action
  {
    hide IntText;
  }

  lemma MoreTextsAt(a: Entry, b: Entry)
    ensures AgreeAt(a, b, 5) <==> a.input.resourceType == b.input.resourceType
    ensures AgreeAt(a, b, 8) <==> a.input.outcome == b.input.outcome
    ensures AgreeAt(a, b, 10) <==> a.prevHash == b.prevHash
  {
    hide IntText;
  }

  lemma OptionalTextsAt(a: Entry, b: Entry)
    ensures AgreeAt(a, b, 6) <==> a.input.resourceId == b.input.resourceId
    ensures AgreeAt(a, b, 9) <==> a.input.traceId == b.input.traceId
  {
    hide IntText;
  }

  lemma FieldsByPosition(a: Entry, b: Entry)
    ensures (forall i :: 0 <= i < 11 ==> AgreeAt(a, b, i)) <==> SameHashedFields(a, b)
  {
    hide AgreeAt, Normalize;
    SequenceAndDetailAt(a, b);
    TextsAt(a, b);
    ActionTextsAt(a, b);
    MoreTextsAt(a, b);
    OptionalTextsAt(a, b);
  }

  // -------------------------------------------------------------------- verifying a chain

  datatype Break =
    | SequenceGap(expected: int, found: int)
    | PrevHashMismatch
    | ContentMismatch

  datatype ChainVerification =
    | Valid(entriesChecked: int)
    | Broken(entriesChecked: int, brokenAtSequence: int, reason: Break)

  /** The entry continues the chain before it: its sequence number, its link and its own hash. */
  ghost predicate LinkOk(h: Hash, entries: seq<Entry>, i: nat)
    requires i < |entries|
  {
    && (i > 0 ==> entries[i].sequence == entries[i - 1].sequence + 1)
    && entries[i].prevHash == (if i == 0 then GENESIS_HASH else entries[i - 1].entryHash)
    && entries[i].entryHash == ComputeEntryHash(h, entries[i])
  }

  ghost predicate ChainOk(h: Hash, entries: seq<Entry>) {
    forall i :: 0 <= i < |entries| ==> LinkOk(h, entries, i)
  }

  /** The first entry that does not continue the chain, and what is wrong with it. */
  ghost predicate BreaksAt(h: Hash, entries: seq<Entry>, i: nat, reason: Break)
    requires i < |entries|
  {
    var e := entries[i];
    var linked := e.prevHash == (if i == 0 then GENESIS_HASH else entries[i - 1].entryHash);
    var inStep := i > 0 ==> e.sequence == entries[i - 1].sequence + 1;
    && ChainOk(h, entries[..i])
    && match reason
       case SequenceGap(expected, found) => !inStep && expected == entries[i - 1].sequence + 1 && found == e.sequence
       case PrevHashMismatch => inStep && !linked
       case ContentMismatch => inStep && linked && e.entryHash != ComputeEntryHash(h, e)
  }

  lemma {:induction false} NumberedFromZero(h: Hash, entries: seq<Entry>, n: nat)
    requires n <= |entries| && entries != [] && entries[0].sequence == 0
    requires forall k :: 0 <= k < n ==> LinkOk(h, entries, k)
    ensures forall k :: 0 <= k < n ==> entries[k].sequence == k
  {
    hide ComputeEntryHash;
    if n > 1 {
      NumberedFromZero(h, entries, n - 1);
      assert LinkOk(h, entries, n - 1);
    }
  }

  lemma HashIgnoresStoredHash(h: Hash, input: Input, sequence: int, prevHash: string, now: string)
    ensures var e := SealEntry(h, input, sequence, prevHash, now);
            e.entryHash == ComputeEntryHash(h, e)
  {
  }

  /** A log of three entries without its second. */
  function WithoutSecond(h: Hash, input: Input, now: string): seq<Entry> {
    var first := SealEntry(h, input, 0, GENESIS_HASH, now);
    var second := SealEntry(h, input, 1, first.entryHash, now);
    [first, SealEntry(h, input, 2, second.entryHash, now)]
  }

  /** It breaks at its second entry, and the count that is reported is 2, although only one entry was good. */
  lemma MissingRowIsCounted(h: Hash, input: Input, now: string)
    ensures var log := WithoutSecond(h, input, now);
            BreaksAt(h, log, 1, SequenceGap(1, 2)) && log[1].sequence == 2
  {
    hide ComputeEntryHash;
    var log := WithoutSecond(h, input, now);
    HashIgnoresStoredHash(h, input, 0, GENESIS_HASH, now);
    assert log[..1] == [log[0]];
    assert LinkOk(h, log[..1], 0);
  }

  lemma LinkInPrefix(h: Hash, entries: seq<Entry>, n: nat, i: nat)
    requires i < n <= |entries|
    ensures LinkOk(h, entries[..n], i) <==> LinkOk(h, entries, i)
  {
  }

  /**
   * Accepts exactly the chains in which every link, sequence step and content
   * hash checks. Otherwise the entries before the reported one form a valid
   * chain and the reported one breaks it for the reported reason. The count in a
   * rejection is the sequence number of the broken entry, which in a log that starts
   * at 0 is the number of entries before it exactly when no row is missing there.
   */
  method VerifyChain(h: Hash, entries: seq<Entry>) returns (v: ChainVerification, ghost at: nat)
    ensures v.Valid? <==> ChainOk(h, entries)
    ensures v.Valid? ==> v.entriesChecked == |entries|
    ensures v.Broken? ==>
              && at < |entries| && BreaksAt(h, entries, at, v.reason)
              && v.brokenAtSequence == v.entriesChecked == entries[at].sequence
              && (entries[0].sequence == 0 ==> (v.entriesChecked == at <==> !v.reason.SequenceGap?))
  {
    hide ComputeEntryHash;
    var expectedPrev := GENESIS_HASH;
    var expectedSeq: Option<int> := None;
    at := 0;
    for i := 0 to |entries|
      invariant at == i
      invariant forall k :: 0 <= k < i ==> LinkOk(h, entries, k)
      invariant expectedPrev == if i == 0 then GENESIS_HASH else entries[i - 1].entryHash
      invariant expectedSeq == if i == 0 then None else Some(entries[i - 1].sequence + 1)
    {
      var entry := entries[i];
      assert ChainOk(h, entries[..i]) by {
        forall k | 0 <= k < i ensures LinkOk(h, entries[..i], k) { LinkInPrefix(h, entries, i, k); }
      }
      if entries[0].sequence == 0 {
        NumberedFromZero(h, entries, i);
      }
      if expectedSeq.Some? && entry.sequence != expectedSeq.value {
        assert !LinkOk(h, entries, i);
        return Broken(entry.sequence, entry.sequence, SequenceGap(expectedSeq.value, entry.sequence)), i;
      }
      if entry.prevHash != expectedPrev {
        assert !LinkOk(h, entries, i);
        return Broken(entry.sequence, entry.sequence, PrevHashMismatch), i;
      }
      var recomputed := ComputeEntryHash(h, entry);
      if recomputed != entry.entryHash {
        assert !LinkOk(h, entries, i);
        return Broken(entry.sequence, entry.sequence, ContentMismatch), i;
      }
      expectedPrev := entry.entryHash;
      expectedSeq := Some(entry.sequence + 1);
      at := i + 1;
    }
    v := Valid(|entries|);
  }

  // ------------------------------------------------------------------ what a hash commits to

  ghost predicate CollisionFree(h: Hash) {
    && (forall x, y :: h(x) == h(y) ==> x == y)
    && (forall x :: h(x) != GENESIS_HASH)
  }

  ghost predicate DetailsOk(entries: seq<Entry>) {
    forall e :: e in entries ==> DetailOk(e)
  }

  lemma SameHashSameFields(h: Hash, a: Entry, b: Entry)
    requires CollisionFree(h) && DetailOk(a) && DetailOk(b)
    requires ComputeEntryHash(h, a) == ComputeEntryHash(h, b)
    ensures SameHashedFields(a, b)
  {
    HashedTextDecidesFields(a, b);
  }

  lemma ChainPrefix(h: Hash, entries: seq<Entry>, n: nat)
    requires ChainOk(h, entries) && n <= |entries|
    ensures ChainOk(h, entries[..n])
  {
    forall i | 0 <= i < n ensures LinkOk(h, entries[..n], i) { LinkInPrefix(h, entries, n, i); }
  }

  /**
   * The head hash commits to the whole log: two valid non-empty chains that end
   * in the same hash have the same length and agree, entry by entry, on every
   * hashed field.
   */
  lemma {:induction false} HeadHashCommitsToChain(h: Hash, a: seq<Entry>, b: seq<Entry>)
    requires CollisionFree(h) && ChainOk(h, a) && ChainOk(h, b) && DetailsOk(a) && DetailsOk(b)
    requires a != [] && b != [] && a[|a| - 1].entryHash == b[|b| - 1].entryHash
    ensures |a| == |b|
    ensures forall i :: 0 <= i < |a| ==> SameHashedFields(a[i], b[i]) && a[i].entryHash == b[i].entryHash
  {
    hide ComputeEntryHash, SameHashedFields, DetailOk;
    var m, n := |a| - 1, |b| - 1;
    assert LinkOk(h, a, m) && LinkOk(h, b, n);
    SameHashSameFields(h, a[m], b[n]);
    SameFieldsSamePrev(a[m], b[n]);
    HashIsNotGenesis(h, a, m);
    HashIsNotGenesis(h, b, n);
    if m > 0 && n > 0 {
      ChainPrefix(h, a, m);
      ChainPrefix(h, b, n);
      HeadHashCommitsToChain(h, a[..m], b[..n]);
      assert forall i :: 0 <= i < m ==> a[i] == a[..m][i] && b[i] == b[..n][i];
    }
  }

  lemma SameFieldsSamePrev(a: Entry, b: Entry)
    requires SameHashedFields(a, b)
    ensures a.prevHash == b.prevHash
  {
  }

  lemma HashIsNotGenesis(h: Hash, entries: seq<Entry>, i: nat)
    requires CollisionFree(h) && ChainOk(h, entries) && i < |entries|
    ensures i > 0 ==> entries[i].prevHash != GENESIS_HASH
    ensures i == 0 ==> entries[i].prevHash == GENESIS_HASH
  {
    assert LinkOk(h, entries, i);
    if i > 0 { assert LinkOk(h, entries, i - 1); }
  }
}
