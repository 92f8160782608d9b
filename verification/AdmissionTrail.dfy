/** The durable admission trail of one task: how it is written, and how it is counted. */
module AdmissionTrail {
  import opened Plans
  import opened LeaseStore

  const ATTEMPTS_BEFORE_SEQUENCING := 2
  const LIFETIME_CAP := 4

  datatype Event = Event(
    status: Status,
    blockedBy: seq<TaskId>,
    partial: bool,
    grantedFiles: set<File>,
    admittedAfterWait: bool,
    waitedMs: nat)

  /** Everything that makes one answer different from another, the clock left out. */
  datatype Fingerprint = Fingerprint(
    status: Status,
    blockedBy: multiset<TaskId>,
    partial: bool,
    grantedFiles: set<File>,
    admittedAfterWait: bool)

  type Trail = seq<Event>

  function FingerprintOf(e: Event): Fingerprint {
    Fingerprint(e.status, multiset(e.blockedBy), e.partial, e.grantedFiles, e.admittedAfterWait)
  }

  predicate IsBlockedEvent(e: Event) {
    e.status.Blocked?
  }

  predicate Same(a: Event, b: Event) {
    FingerprintOf(a) == FingerprintOf(b)
  }

  /** Appends an answer unless it repeats the last one. */
  function Record(trail: Trail, e: Event): Trail {
    if trail != [] && Same(trail[|trail| - 1], e) then trail else trail + [e]
  }

  /** The trail a sequence of answers leaves behind. */
  function Recorded(answers: seq<Event>): Trail {
    if answers == [] then [] else Record(Recorded(answers[..|answers| - 1]), answers[|answers| - 1])
  }

  ghost predicate NoRepeats(trail: Trail) {
    forall i :: 0 <= i < |trail| - 1 ==> !Same(trail[i], trail[i + 1])
  }

  /** The length of the longest all-blocked suffix. */
  function BlockedSuffix(trail: Trail): (n: nat)
    ensures n <= |trail|
  {
    if trail == [] || !IsBlockedEvent(trail[|trail| - 1]) then 0 else 1 + BlockedSuffix(trail[..|trail| - 1])
  }

  function BlockedTotal(trail: Trail): nat {
    if trail == [] then 0
    else BlockedTotal(trail[..|trail| - 1]) + if IsBlockedEvent(trail[|trail| - 1]) then 1 else 0
  }

  /** The suffix is all blocked, cannot be made longer, and is part of the total. */
  lemma {:induction false} BlockedSuffixIsLongest(trail: Trail)
    ensures forall i :: |trail| - BlockedSuffix(trail) <= i < |trail| ==> IsBlockedEvent(trail[i])
    ensures BlockedSuffix(trail) < |trail| ==> !IsBlockedEvent(trail[|trail| - 1 - BlockedSuffix(trail)])
    ensures BlockedSuffix(trail) <= BlockedTotal(trail)
  {
    if trail != [] && IsBlockedEvent(trail[|trail| - 1]) {
      BlockedSuffixIsLongest(trail[..|trail| - 1]);
    }
  }

  /** Counts refusals from the newest entry back. */
  method BlockedAdmissionHistory(trail: Trail) returns (consecutive: nat, total: nat)
    ensures consecutive == BlockedSuffix(trail)
    ensures total == BlockedTotal(trail)
    ensures consecutive <= total
  {
    consecutive, total := 0, 0;
    assert trail[..|trail|] == trail;
    var counting := true;
    var n := |trail|;
    while n > 0
      invariant 0 <= n <= |trail|
      invariant total + BlockedTotal(trail[..n]) == BlockedTotal(trail)
      invariant counting ==> consecutive + BlockedSuffix(trail[..n]) == BlockedSuffix(trail)
      invariant !counting ==> consecutive == BlockedSuffix(trail)
    {
      assert trail[..n][..n - 1] == trail[..n - 1];
      n := n - 1;
      if IsBlockedEvent(trail[n]) {
        total := total + 1;
        if counting {
          consecutive := consecutive + 1;
        }
      } else {
        counting := false;
      }
    }
    BlockedSuffixIsLongest(trail);
  }

  /** How many refusals the decision procedure is told about. */
  function BlockedAttempts(trail: Trail): nat {
    var capped := if BlockedTotal(trail) >= LIFETIME_CAP then ATTEMPTS_BEFORE_SEQUENCING else 0;
    if BlockedSuffix(trail) >= capped then BlockedSuffix(trail) else capped
  }

  function Refusals(trail: Trail): set<int> {
    set i | 0 <= i < |trail| && trail[i].status == Status.Blocked
  }

  /** Counted are the entries that say blocked, and no others. */
  lemma {:induction false} TotalCountsRefusals(trail: Trail)
    ensures BlockedTotal(trail) == |Refusals(trail)|
    decreases |trail|
  {
    if trail == [] {
      assert Refusals([]) == {};
    } else {
      var init, last := trail[..|trail| - 1], trail[|trail| - 1];
      TotalCountsRefusals(init);
      assert Refusals(trail) == Refusals(init) + if last.status == Status.Blocked then {|init|} else {};
    }
  }

  /** The procedure is told to stop asking for another plan after two refusals in a row, or four in all. */
  lemma ToldToSequenceIff(trail: Trail)
    ensures BlockedAttempts(trail) >= 2 <==> BlockedSuffix(trail) >= 2 || |Refusals(trail)| >= 4
    ensures BlockedAttempts(trail) >= BlockedSuffix(trail)
    ensures |Refusals(trail)| < 4 ==> BlockedAttempts(trail) == BlockedSuffix(trail)
  {
    TotalCountsRefusals(trail);
  }

  predicate WasPartial(trail: Trail) {
    exists i :: 0 <= i < |trail| && trail[i].partial
  }

  /** A trail written only through `Record` never repeats itself side by side, and ends with the
      last answer's fingerprint. */
  lemma {:induction false} RecordedHasNoRepeats(answers: seq<Event>)
    ensures NoRepeats(Recorded(answers))
    ensures answers != [] ==>
      Recorded(answers) != [] && Same(Recorded(answers)[|Recorded(answers)| - 1], answers[|answers| - 1])
  {
    if answers != [] {
      RecordedHasNoRepeats(answers[..|answers| - 1]);
      RecordKeepsNoRepeats(Recorded(answers[..|answers| - 1]), answers[|answers| - 1]);
    }
  }

  lemma RecordKeepsNoRepeats(trail: Trail, e: Event)
    requires NoRepeats(trail)
    ensures NoRepeats(Record(trail, e))
    ensures Record(trail, e) != [] && Same(Record(trail, e)[|Record(trail, e)| - 1], e)
  {
    var r := Record(trail, e);
    forall i | 0 <= i < |r| - 1 ensures !Same(r[i], r[i + 1]) {
      if i < |trail| - 1 {
        assert !Same(trail[i], trail[i + 1]);
      }
    }
  }

  /** Recording never lowers the lifetime count and never forgets a partial admission. */
  lemma RecordOnlyAdds(trail: Trail, e: Event)
    ensures BlockedTotal(Record(trail, e)) >= BlockedTotal(trail)
    ensures WasPartial(Record(trail, e)) <==> WasPartial(trail) || e.partial
  {
    var r := Record(trail, e);
    if r == trail {
      assert e.partial ==> trail[|trail| - 1].partial;
    } else {
      assert r[..|r| - 1] == trail;
      assert forall i :: 0 <= i < |trail| ==> r[i] == trail[i];
      assert r[|trail|] == e;
    }
  }

  /** The number of runs of equal answers. */
  function Runs(answers: seq<Event>): nat {
    if answers == [] then 0
    else if |answers| == 1 then 1
    else Runs(answers[..|answers| - 1])
         + if Same(answers[|answers| - 2], answers[|answers| - 1]) then 0 else 1
  }

  function Tail(answers: seq<Event>): seq<Event> {
    answers[|answers| - BlockedSuffix(answers)..]
  }

  lemma SuffixOne(init: seq<Event>, last: Event)
    ensures BlockedSuffix(init + [last]) == if IsBlockedEvent(last) then 1 + BlockedSuffix(init) else 0
    ensures Tail(init + [last]) == if IsBlockedEvent(last) then Tail(init) + [last] else []
  {
    assert (init + [last])[..|init|] == init;
  }

  lemma RunsOne(answers: seq<Event>, last: Event)
    ensures Runs(answers + [last])
            == Runs(answers) + if answers != [] && Same(answers[|answers| - 1], last) then 0 else 1
  {
    assert (answers + [last])[..|answers|] == answers;
  }

  /** Recording a refusal counts it unless the answer before it was the same one. */
  lemma RecordCounts(trail: Trail, last: Event)
    requires IsBlockedEvent(last)
    ensures BlockedSuffix(Record(trail, last))
            == BlockedSuffix(trail) + if trail != [] && Same(trail[|trail| - 1], last) then 0 else 1
  {
    SuffixOne(trail, last);
  }

  lemma RecordEnds(trail: Trail, last: Event)
    requires !IsBlockedEvent(last)
    ensures BlockedSuffix(Record(trail, last)) == 0
  {
  }

  lemma TailEnds(answers: seq<Event>)
    ensures Tail(answers) == [] <==> answers == [] || !IsBlockedEvent(answers[|answers| - 1])
    ensures Tail(answers) != [] ==> Tail(answers)[|Tail(answers)| - 1] == answers[|answers| - 1]
  {
  }

  /** What is counted, as coded: not the refused attempts but the runs of different answers among
      the attempts since the last one that was not a refusal. */
  lemma {:induction false} ConsecutiveCountsRuns(answers: seq<Event>)
    ensures BlockedSuffix(Recorded(answers)) == Runs(Tail(answers))
  {
    hide Record, Tail, BlockedSuffix, Runs;
    if answers == [] {
      NothingCounted();
    } else {
      var init, last := answers[..|answers| - 1], answers[|answers| - 1];
      ConsecutiveCountsRuns(init);
      RecordedHasNoRepeats(init);
      SuffixOne(init, last);
      assert answers == init + [last];
      if IsBlockedEvent(last) {
        RecordCounts(Recorded(init), last);
        RunsOne(Tail(init), last);
        TailEnds(init);
        if init == [] {
          assert Recorded(init) == [];
        }
      } else {
        RecordEnds(Recorded(init), last);
        NothingCounted();
      }
    }
  }

  lemma NothingCounted()
    ensures BlockedSuffix(Recorded([])) == 0 && Tail([]) == [] && Runs([]) == 0
  {
  }

  lemma {:induction false} RunsAboveOne(answers: seq<Event>)
    ensures Runs(answers) >= 2 <==> exists i :: 0 <= i < |answers| - 1 && !Same(answers[i], answers[i + 1])
    ensures answers != [] ==> Runs(answers) >= 1
  {
    if |answers| > 1 {
      var init := answers[..|answers| - 1];
      RunsAboveOne(init);
      assert forall i :: 0 <= i < |init| ==> init[i] == answers[i];
      if i :| 0 <= i < |answers| - 1 && !Same(answers[i], answers[i + 1]) {
        if i < |init| - 1 {
          assert !Same(init[i], init[i + 1]);
        }
      }
    }
  }

  /** A task refused over and over reaches the escalation point by its unbroken run exactly when two
      successive refusals of that run differ; the same refusal repeated any number of times counts once. */
  lemma EscalatesOnlyOnChange(answers: seq<Event>)
    ensures BlockedSuffix(Recorded(answers)) >= ATTEMPTS_BEFORE_SEQUENCING
            <==> exists i :: 0 <= i < |Tail(answers)| - 1 && !Same(Tail(answers)[i], Tail(answers)[i + 1])
  {
    ConsecutiveCountsRuns(answers);
    RunsAboveOne(Tail(answers));
  }

  /** The documented escalation after two refusals is never reached by identical ones, however many. */
  lemma {:induction false} IdenticalRefusalsNeverEscalate(answers: seq<Event>)
    requires answers != [] && IsBlockedEvent(answers[0])
    requires forall i :: 0 <= i < |answers| ==> Same(answers[0], answers[i])
    ensures Recorded(answers) == [answers[0]]
    ensures BlockedAttempts(Recorded(answers)) == 1 < ATTEMPTS_BEFORE_SEQUENCING
    decreases |answers|
  {
    var init := answers[..|answers| - 1];
    if |answers| > 1 {
      IdenticalRefusalsNeverEscalate(init);
    } else {
      assert Recorded(init) == [];
      assert answers == [answers[0]];
    }
    var only := [answers[0]];
    assert only[..0] == [];
    assert BlockedTotal(only) == 1 && BlockedSuffix(only) == 1;
  }
}
