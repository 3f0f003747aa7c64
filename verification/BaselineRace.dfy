/**
 * Updates of one baseline as they interleave: `updateBaseline` of
 * packages/agent-runtime/src/memory.ts reads the stored baseline in one statement
 * and writes the blend in another. Time is left out: the key does not expire.
 */
module BaselineRace {
  import opened Wrappers
  import opened Memory

  type CallId = nat

  datatype Event =
    | Read(call: CallId, sample: Sample)
    | Write(call: CallId)

  /** What an update has read, and the sample it will blend in. */
  datatype Reading = Reading(prior: Option<Baseline>, sample: Sample)

  datatype State = State(stored: Option<Baseline>, open: map<CallId, Reading>)

  predicate Enabled(s: State, e: Event) {
    match e
    case Read(call, _) => call !in s.open
    case Write(call) => call in s.open
  }

  function Next(s: State, e: Event): State
    requires Enabled(s, e)
  {
    match e
    case Read(call, sample) => s.(open := s.open[call := Reading(s.stored, sample)])
    case Write(call) => State(Some(Blend(s.open[call].prior, s.open[call].sample)), s.open - {call})
  }

  ghost predicate StepAt(states: seq<State>, events: seq<Event>, i: nat)
    requires i < |events| < |states|
  {
    Enabled(states[i], events[i]) && states[i + 1] == Next(states[i], events[i])
  }

  ghost predicate IsRun(states: seq<State>, events: seq<Event>) {
    && |states| == |events| + 1 && states[0] == State(None, map[])
    && forall i :: 0 <= i < |events| ==> StepAt(states, events, i)
  }

  predicate ReadsAt(events: seq<Event>, i: nat, call: CallId)
    requires i < |events|
  {
    events[i].Read? && events[i].call == call
  }

  /** The position of the latest of the first `n` events that is a read of the call. */
  function LatestRead(events: seq<Event>, n: nat, call: CallId): Option<nat>
    requires n <= |events|
  {
    if n == 0 then None else if ReadsAt(events, n - 1, call) then Some(n - 1) else LatestRead(events, n - 1, call)
  }

  /** The samples of the updates that were written, in the order of the writes. */
  function Written(states: seq<State>, events: seq<Event>, n: nat): seq<Sample>
    requires n <= |events| < |states|
  {
    if n == 0 then []
    else if events[n - 1].Write? && events[n - 1].call in states[n - 1].open
    then Written(states, events, n - 1) + [states[n - 1].open[events[n - 1].call].sample]
    else Written(states, events, n - 1)
  }

  /** The write of an update after another's write that came since it read. */
  ghost predicate Overtaken(events: seq<Event>, i: nat)
    requires i < |events|
  {
    events[i].Write? && LatestRead(events, i, events[i].call).Some? &&
    exists j :: LatestRead(events, i, events[i].call).value < j < i && events[j].Write?
  }

  /** An open update has read what was stored when it read. */
  ghost predicate OpenIsRead(states: seq<State>, events: seq<Event>, n: nat, call: CallId)
    requires n <= |events| < |states|
  {
    call in states[n].open ==>
      var r := LatestRead(events, n, call);
      && r.Some? && r.value < n && events[r.value].Read?
      && states[n].open[call] == Reading(states[r.value].stored, events[r.value].sample)
  }

  lemma {:induction false} ReadingsAreTrue(states: seq<State>, events: seq<Event>, n: nat, call: CallId)
    requires IsRun(states, events) && n <= |events|
    ensures OpenIsRead(states, events, n, call)
  {
    hide Blend;
    if n > 0 {
      ReadingsAreTrue(states, events, n - 1, call);
      assert StepAt(states, events, n - 1);
    }
  }

  lemma {:induction false} WrittenGrows(states: seq<State>, events: seq<Event>, i: nat, n: nat)
    requires i <= n <= |events| < |states|
    requires IsRun(states, events)
    ensures |Written(states, events, i)| <= |Written(states, events, n)|
    ensures (exists j :: i <= j < n && events[j].Write?)
            <==> |Written(states, events, i)| < |Written(states, events, n)|
    ensures !(exists j :: i <= j < n && events[j].Write?) ==>
              Written(states, events, i) == Written(states, events, n) && states[i].stored == states[n].stored
  {
    if i < n {
      WrittenGrows(states, events, i, n - 1);
      assert StepAt(states, events, n - 1);
      if exists j :: i <= j < n - 1 && events[j].Write? {
        var j :| i <= j < n - 1 && events[j].Write?;
        assert i <= j < n && events[j].Write?;
      } else if events[n - 1].Write? {
        assert i <= n - 1 < n;
      }
    }
  }

  function CountOf(stored: Option<Baseline>): nat {
    if stored.Some? then stored.value.count else 0
  }

  lemma {:induction false} RollingCounts(history: seq<Sample>)
    ensures CountOf(Rolling(history)) == |history|
  {
    if history != [] {
      RollingCounts(history[..|history| - 1]);
    }
  }

  lemma RollingExtends(history: seq<Sample>, s: Sample)
    ensures Rolling(history + [s]) == Some(Blend(Rolling(history), s))
  {
    assert (history + [s])[..|history|] == history;
  }

  ghost predicate SomeOvertaken(events: seq<Event>, n: nat)
    requires n <= |events|
  {
    exists i :: 0 <= i < n && Overtaken(events, i)
  }

  /** Until a write is overtaken everything is summarised; from then on the count falls short for good. */
  ghost predicate Summarised(states: seq<State>, events: seq<Event>, n: nat)
    requires n <= |events| < |states|
  {
    if SomeOvertaken(events, n) then CountOf(states[n].stored) < |Written(states, events, n)|
    else states[n].stored == Rolling(Written(states, events, n))
  }

  lemma OneMoreEvent(events: seq<Event>, n: nat)
    requires n < |events|
    ensures SomeOvertaken(events, n + 1) <==> SomeOvertaken(events, n) || Overtaken(events, n)
  {
    if SomeOvertaken(events, n) {
      var i :| 0 <= i < n && Overtaken(events, i);
      assert Overtaken(events, i) && i < n + 1;
    }
  }

  lemma EarlierIsNoWorse(events: seq<Event>, m: nat, n: nat)
    requires m <= n <= |events| && SomeOvertaken(events, m)
    ensures SomeOvertaken(events, n)
  {
    var i :| 0 <= i < m && Overtaken(events, i);
    assert i < n && Overtaken(events, i);
  }

  lemma {:induction false} EveryStateIsSummarised(states: seq<State>, events: seq<Event>, n: nat)
    requires IsRun(states, events) && n <= |events|
    ensures Summarised(states, events, n)
    decreases n
  {
    hide Blend, Overtaken;
    if n > 0 {
      EveryStateIsSummarised(states, events, n - 1);
      assert StepAt(states, events, n - 1);
      OneMoreEvent(events, n - 1);
      if events[n - 1].Write? {
        ReadingsAreTrue(states, events, n - 1, events[n - 1].call);
        var r := LatestRead(events, n - 1, events[n - 1].call).value;
        EveryStateIsSummarised(states, events, r);
        WriteIsSummarised(states, events, n - 1, r);
      } else {
        ReadIsNoWrite(events, n - 1);
      }
    }
  }

  lemma ReadIsNoWrite(events: seq<Event>, i: nat)
    requires i < |events| && events[i].Read?
    ensures !Overtaken(events, i)
  {
  }

  lemma BlendCounts(prior: Option<Baseline>, s: Sample)
    ensures Blend(prior, s).count == CountOf(prior) + 1
  {
  }

  lemma WriteIsSummarised(states: seq<State>, events: seq<Event>, i: nat, r: nat)
    requires IsRun(states, events) && i < |events| && events[i].Write? && r < i
    requires LatestRead(events, i, events[i].call) == Some(r) && OpenIsRead(states, events, i, events[i].call)
    requires Summarised(states, events, i) && Summarised(states, events, r)
    ensures Summarised(states, events, i + 1)
  {
    hide Blend, LatestRead;
    assert StepAt(states, events, i) && StepAt(states, events, r);
    var reading := states[i].open[events[i].call];
    BlendCounts(reading.prior, reading.sample);
    WrittenGrows(states, events, r, i);
    OneMoreEvent(events, i);
    RollingCounts(Written(states, events, r));
    RollingExtends(Written(states, events, i), reading.sample);
    assert Overtaken(events, i) <==> exists j :: r <= j < i && events[j].Write? by {
      OvertakenSince(events, i, r);
    }
    if SomeOvertaken(events, r) { EarlierIsNoWorse(events, r, i); }
  }

  lemma OvertakenSince(events: seq<Event>, i: nat, r: nat)
    requires r < i < |events| && events[i].Write? && events[r].Read? && LatestRead(events, i, events[i].call) == Some(r)
    ensures Overtaken(events, i) <==> exists j :: r <= j < i && events[j].Write?
  {
    if exists j :: r <= j < i && events[j].Write? {
      var j :| r <= j < i && events[j].Write?;
      assert r < j;
    }
  }

  /**
   * However updates of one key interleave: what is stored summarises the samples of
   * all updates written so far exactly when no write fell between another update's
   * read and its write.
   */
  lemma StoredSummarisesExactlyWhen(states: seq<State>, events: seq<Event>, n: nat)
    requires IsRun(states, events) && n <= |events|
    ensures states[n].stored == Rolling(Written(states, events, n))
            <==> forall i :: 0 <= i < n ==> !Overtaken(events, i)
  {
    EveryStateIsSummarised(states, events, n);
    RollingCounts(Written(states, events, n));
  }

  /** Two updates that both read before either writes: of two samples one is in the baseline. */
  lemma UpdateCanBeLost(a: Sample, b: Sample) returns (states: seq<State>, events: seq<Event>)
    ensures IsRun(states, events)
    ensures |Written(states, events, |events|)| == 2 && CountOf(states[|events|].stored) == 1
  {
    events := [Read(0, a), Read(1, b), Write(0), Write(1)];
    var s0 := State(None, map[]);
    var s1 := Next(s0, events[0]);
    var s2 := Next(s1, events[1]);
    var s3 := Next(s2, events[2]);
    states := [s0, s1, s2, s3, Next(s3, events[3])];
    assert StepAt(states, events, 0) && StepAt(states, events, 1) && StepAt(states, events, 2)
           && StepAt(states, events, 3);
    assert Written(states, events, 1) == [];
    assert Written(states, events, 2) == [];
    assert |Written(states, events, 3)| == 1;
  }
}
