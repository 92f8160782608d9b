/** Why exclusivity needs its hypothesis: two runs in which a claim is rewritten from a plan that is no
longer the one stored.

In both, the holder's claim is narrowed for an arrival, the arrival is granted a file it gave up, and a
second narrowing of the claim, from the plan as it was read before, takes the file back.
*/
module AdmissionRace {
  import opened Optional
  import opened Plans
  import opened LeaseStore
  import opened AdmissionProtocol
  import opened HolderNarrowing

  /** The step is enabled and leads from one state to the other. */
  ghost predicate Leads(s: State, step: Step, t: State) {
    Enabled(s, step) && Next(s, step) == t
  }

  ghost predicate Linked(states: seq<State>, steps: seq<Step>) {
    |states| == |steps| + 1 && forall k :: 0 <= k < |steps| ==> Leads(states[k], steps[k], states[k + 1])
  }

  lemma LinkedTail(states: seq<State>, steps: seq<Step>)
    requires Linked(states, steps) && steps != []
    ensures Leads(states[0], steps[0], states[1]) && Linked(states[1..], steps[1..])
  {
    forall k | 0 <= k < |steps| - 1 ensures Leads(states[1..][k], steps[1..][k], states[1..][k + 1]) {
      assert Leads(states[k + 1], steps[k + 1], states[k + 2]);
    }
  }

  lemma {:induction false} Chain(states: seq<State>, steps: seq<Step>)
    requires Linked(states, steps)
    ensures IsRun(states[0], steps) && After(states[0], steps) == states[|steps|]
    decreases |steps|
  {
    hide Enabled, Next;
    if steps != [] {
      LinkedTail(states, steps);
      Chain(states[1..], steps[1..]);
    }
  }

  lemma {:induction false} SoundChain(states: seq<State>, steps: seq<Step>)
    requires Linked(states, steps)
    requires forall k :: 0 <= k < |steps| ==> Enabled(states[k], steps[k]) && Sound(states[k], steps[k])
    ensures IsRun(states[0], steps) && AllSound(states[0], steps)
    decreases |steps|
  {
    hide Enabled, Next, Sound;
    Chain(states, steps);
    if steps != [] {
      LinkedTail(states, steps);
      forall k | 0 <= k < |steps| - 1 ensures Enabled(states[1..][k], steps[1..][k]) && Sound(states[1..][k], steps[1..][k]) {
        assert states[1..][k] == states[k + 1] && steps[1..][k] == steps[k + 1];
      }
      SoundChain(states[1..], steps[1..]);
    }
  }

  const HOLDER := Lease("a", "r", None, true, None)
  const FIRST := Lease("b", "r", None, true, None)
  const SECOND := Lease("c", "r", None, true, None)

  /** The holder's claim, what the first arrival and then the other writer narrow it to, and what the
      first arrival wants. */
  datatype Race = Race(estimate: set<File>, claim: Plan, byFirst: Plan, byOther: Plan, wanted: Plan)

  ghost predicate Fair(r: Race) {
    && r.claim == BlanketPlan("a", r.estimate) && IsBlanket(r.claim)
    && !IsBlanket(r.byFirst) && !IsBlanket(r.wanted) && Compatible(r.wanted, r.byFirst)
  }

  function Granted(p: Plan): Submission {
    Submission(p, GRANTED)
  }

  function Held(p: Plan): Lease {
    HOLDER.(submission := Some(Granted(p)))
  }

  function Won(p: Plan): Lease {
    FIRST.(submission := Some(Granted(p)))
  }

  // ----- The holder's own poll, prepared before the arrival's narrowing lands

  function Table(p: Plan): Leases {
    map[0 := Held(p), 1 := FIRST]
  }

  lemma TableIds(p: Plan)
    ensures ApprovedOthers(Table(p), "r", 1) == {0} && ApprovedOthers(Table(p), "r", 0) == {}
    ensures ViewOf(Table(p), {0}) == map[0 := p]
  {
  }

  lemma TableRewritten(p: Plan, q: Plan)
    ensures Save(Table(p), 0, Granted(q), {}, true) == (Saved, Table(q))
  {
    TableIds(p);
    assert Table(p)[0 := Held(q)] == Table(q);
  }

  function Seen(p: Plan): Pending {
    Viewed(1, {0}, map[0 := p])
  }

  function Deciding(r: Race): Pending {
    Decided(1, {0}, map[0 := r.byFirst], Granted(r.wanted), false)
  }

  function PollAt(r: Race, k: nat): State
    requires k <= 11
  {
    match k
    case 0 => EMPTY
    case 1 => State(map[0 := HOLDER], map[])
    case 2 => State(map[0 := HOLDER], map[0 := Decided(0, {}, map[], Granted(r.claim), false)])
    case 3 => State(map[0 := Held(r.claim)], map[])
    case 4 => State(Table(r.claim), map[])
    case 5 => State(Table(r.claim), map[1 := Seen(r.claim)])
    case 6 => State(Table(r.claim), map[1 := Seen(r.claim), 2 := Rewriting(0, {}, r.byFirst, Some(1))])
    case 7 => State(Table(r.claim), map[1 := Seen(r.claim), 2 := Rewriting(0, {}, r.byFirst, Some(1)),
                                        3 := Rewriting(0, {}, r.byOther, None)])
    case 8 => State(Table(r.byFirst), map[1 := Seen(r.byFirst), 3 := Rewriting(0, {}, r.byOther, None)])
    case 9 => State(Table(r.byFirst), map[1 := Deciding(r), 3 := Rewriting(0, {}, r.byOther, None)])
    case 10 => State(Table(r.byOther), map[1 := Deciding(r)])
    case 11 => State(map[0 := Held(r.byOther), 1 := Won(r.wanted)], map[])
  }

  function PollStep(r: Race, k: nat): Step
    requires k < 11
  {
    match k
    case 0 => Mint(0, HOLDER)
    case 1 => ClaimRepository(0, 0, r.estimate)
    case 2 => Commit(0)
    case 3 => Mint(1, FIRST)
    case 4 => Read(1, 1)
    case 5 => Rewrite(2, 0, r.byFirst, Some(1))
    case 6 => Rewrite(3, 0, r.byOther, None)
    case 7 => Commit(2)
    case 8 => Decide(1, Granted(r.wanted), false)
    case 9 => Commit(3)
    case 10 => Commit(1)
  }

  lemma PollBegins(r: Race, k: nat)
    requires Fair(r) && k < 4
    ensures Leads(PollAt(r, k), PollStep(r, k), PollAt(r, k + 1))
  {
    assert ApprovedOthers(map[0 := HOLDER], "r", 0) == {};
  }

  lemma PollPrepares(r: Race, k: nat)
    requires Fair(r) && 4 <= k < 7
    ensures Leads(PollAt(r, k), PollStep(r, k), PollAt(r, k + 1))
  {
    TableIds(r.claim);
  }

  lemma PollNarrows(r: Race)
    requires Fair(r)
    ensures Leads(PollAt(r, 7), Commit(2), PollAt(r, 8))
  {
    hide Fair, Save, ApprovedOthers, Table;
    TableRewritten(r.claim, r.byFirst);
    assert map[0 := r.claim][0 := r.byFirst] == map[0 := r.byFirst];
    assert Next(PollAt(r, 7), Commit(2)).pending == PollAt(r, 8).pending;
  }

  lemma PollDecides(r: Race)
    requires Fair(r)
    ensures Leads(PollAt(r, 8), PollStep(r, 8), PollAt(r, 9))
  {
    hide Compatible;
    assert PollAt(r, 8).pending[1 := Deciding(r)] == PollAt(r, 9).pending;
  }

  lemma PollLands(r: Race)
    requires Fair(r)
    ensures Leads(PollAt(r, 9), Commit(3), PollAt(r, 10))
  {
    hide Fair, Save, ApprovedOthers, Table;
    TableRewritten(r.byFirst, r.byOther);
    assert PollAt(r, 9).pending - {3} == PollAt(r, 10).pending;
  }

  lemma PollGrants(r: Race)
    requires Fair(r)
    ensures Leads(PollAt(r, 10), Commit(1), PollAt(r, 11))
  {
    TableIds(r.byOther);
    assert PollAt(r, 10).pending - {1} == PollAt(r, 11).pending;
  }

  lemma PollLeads(r: Race, k: nat)
    requires Fair(r) && k < 11
    ensures Leads(PollAt(r, k), PollStep(r, k), PollAt(r, k + 1))
  {
    hide Leads, PollAt, PollStep;
    if k < 4 {
      PollBegins(r, k);
    } else if k < 7 {
      PollPrepares(r, k);
    } else {
      PollEnds(r, k);
    }
  }

  lemma PollEnds(r: Race, k: nat)
    requires Fair(r) && 7 <= k < 11
    ensures Leads(PollAt(r, k), PollStep(r, k), PollAt(r, k + 1))
  {
    hide Leads, PollAt;
    PollNarrows(r);
    PollDecides(r);
    PollLands(r);
    PollGrants(r);
  }

  function PollStates(r: Race): seq<State> {
    seq(12, k requires 0 <= k < 12 => PollAt(r, k))
  }

  function PollSteps(r: Race): seq<Step> {
    seq(11, k requires 0 <= k < 11 => PollStep(r, k))
  }

  /** The run ends with both plans on the table, so it is exclusive exactly when they are compatible. */
  lemma PollRaceEnds(r: Race)
    requires Fair(r)
    ensures IsRun(EMPTY, PollSteps(r))
    ensures Exclusive(After(EMPTY, PollSteps(r)).leases) <==> Compatible(r.byOther, r.wanted)
  {
    forall k | 0 <= k < 11 ensures Leads(PollStates(r)[k], PollSteps(r)[k], PollStates(r)[k + 1]) {
      PollLeads(r, k);
    }
    Chain(PollStates(r), PollSteps(r));
    BothOnTheTable(map[0 := Held(r.byOther), 1 := Won(r.wanted)], r.byOther, r.wanted);
  }

  lemma BothOnTheTable(leases: Leases, held: Plan, won: Plan)
    requires {0, 1} <= leases.Keys && leases[0] == Held(held) && leases[1] == Won(won)
    requires forall l :: l in leases && l != 0 && l != 1 ==> !Executes(leases[l])
    ensures Exclusive(leases) <==> Compatible(held, won)
  {
    hide Compatible;
    assert Contend(leases, 0, 1) && Executes(leases[0]) && Executes(leases[1]);
    assert PlanOn(leases, 0) == held && PlanOn(leases, 1) == won;
    CompatibleSymmetric(held, won);
  }

  /** What the code really narrows one claim on `f` to, from one reading of its holder in `g`: for an
      arrival that wants `f`, and for anybody who does not. */
  function FirstNarrowing(): Plan {
    Freeze(Without(BlanketPlan("a", {"f"}), ReleasedTo({"f"}, {"f"}, {"g"})), {"g"})
  }

  function OtherNarrowing(): Plan {
    Freeze(Without(BlanketPlan("a", {"f"}), ReleasedTo({"f"}, {}, {"g"})), {"g"})
  }

  const WANTED := Plan("b", map["f" := {}], Ordinary)
  const RACE := Race({"f"}, BlanketPlan("a", {"f"}), FirstNarrowing(), OtherNarrowing(), WANTED)

  lemma RaceIsFair()
    ensures Fair(RACE) && !Compatible(OtherNarrowing(), WANTED) && Narrows(FirstNarrowing(), RACE.claim)
    ensures Files(FirstNarrowing()) == {"g"} && Files(OtherNarrowing()) == {"f", "g"}
  {
    var claim := BlanketPlan("a", {"f"});
    assert ReleasedTo({"f"}, {"f"}, {"g"}) == {"f"} && ReleasedTo({"f"}, {}, {"g"}) == {};
    assert Files(Without(claim, {"f"})) == {} && Files(Without(claim, {})) == {"f"};
    assert Files(FirstNarrowing()) == {"g"};
    assert Files(OtherNarrowing()) == {"f", "g"};
    assert Covers(OtherNarrowing(), "f", "") && Covers(WANTED, "f", "");
    NarrowsClaimIff(FirstNarrowing(), claim);
  }

  /** The holder's poll and the arrival, both narrowing the claim as they read it: both commit, with the
      grant of `f` between them. */
  lemma RacingNarrowingsBreakExclusivity()
    ensures IsRun(EMPTY, PollSteps(RACE))
    ensures !Exclusive(After(EMPTY, PollSteps(RACE)).leases)
  {
    RaceIsFair();
    PollRaceEnds(RACE);
  }

  // ----- A second arrival, which read the claim before it was narrowed

  function Crowd(p: Plan, first: Lease): Leases {
    map[0 := Held(p), 1 := first, 2 := SECOND]
  }

  lemma CrowdIds(p: Plan, q: Plan)
    ensures ApprovedOthers(Crowd(p, FIRST), "r", 0) == {}
    ensures ApprovedOthers(Crowd(p, FIRST), "r", 1) == {0} && ApprovedOthers(Crowd(p, FIRST), "r", 2) == {0}
    ensures ApprovedOthers(Crowd(p, Won(q)), "r", 0) == {1}
    ensures ViewOf(Crowd(p, FIRST), {0}) == map[0 := p]
  {
  }

  lemma CrowdRewritten(p: Plan, q: Plan, first: Lease)
    requires first == FIRST || (exists w :: first == Won(w))
    ensures var ids := if first == FIRST then {} else {1};
            && ApprovedOthers(Crowd(p, first), "r", 0) == ids
            && Save(Crowd(p, first), 0, Granted(q), ids, true) == (Saved, Crowd(q, first))
  {
    assert Crowd(p, first)[0 := Held(q)] == Crowd(q, first);
  }

  lemma CrowdWon(p: Plan, q: Plan)
    ensures Save(Crowd(p, FIRST), 1, Granted(q), {0}, false) == (Saved, Crowd(p, Won(q)))
  {
    CrowdIds(p, q);
    assert Crowd(p, FIRST)[1 := Won(q)] == Crowd(p, Won(q));
  }

  function Behind(r: Race): Pending {
    Viewed(2, {0}, map[0 := r.claim])
  }

  function LateAt(r: Race, k: nat): State
    requires k <= 13
  {
    match k
    case 0 => EMPTY
    case 1 => State(map[0 := HOLDER], map[])
    case 2 => State(map[0 := HOLDER], map[0 := Decided(0, {}, map[], Granted(r.claim), false)])
    case 3 => State(map[0 := Held(r.claim)], map[])
    case 4 => State(Table(r.claim), map[])
    case 5 => State(Crowd(r.claim, FIRST), map[])
    case 6 => State(Crowd(r.claim, FIRST), map[1 := Seen(r.claim)])
    case 7 => State(Crowd(r.claim, FIRST), map[1 := Seen(r.claim), 2 := Behind(r)])
    case 8 => State(Crowd(r.claim, FIRST), map[1 := Seen(r.claim), 2 := Behind(r), 3 := Rewriting(0, {}, r.byFirst, Some(1))])
    case 9 => State(Crowd(r.byFirst, FIRST), map[1 := Seen(r.byFirst), 2 := Behind(r)])
    case 10 => State(Crowd(r.byFirst, FIRST), map[1 := Deciding(r), 2 := Behind(r)])
    case 11 => State(Crowd(r.byFirst, Won(r.wanted)), map[2 := Behind(r)])
    case 12 => State(Crowd(r.byFirst, Won(r.wanted)), map[2 := Behind(r), 4 := Rewriting(0, {1}, r.byOther, Some(2))])
    case 13 => State(Crowd(r.byOther, Won(r.wanted)), map[2 := Viewed(2, {0}, map[0 := r.byOther])])
  }

  function LateStep(r: Race, k: nat): Step
    requires k < 13
  {
    match k
    case 0 => Mint(0, HOLDER)
    case 1 => ClaimRepository(0, 0, r.estimate)
    case 2 => Commit(0)
    case 3 => Mint(1, FIRST)
    case 4 => Mint(2, SECOND)
    case 5 => Read(1, 1)
    case 6 => Read(2, 2)
    case 7 => Rewrite(3, 0, r.byFirst, Some(1))
    case 8 => Commit(3)
    case 9 => Decide(1, Granted(r.wanted), false)
    case 10 => Commit(1)
    case 11 => Rewrite(4, 0, r.byOther, Some(2))
    case 12 => Commit(4)
  }

  lemma LateBegins(r: Race, k: nat)
    requires Fair(r) && k < 5
    ensures Leads(LateAt(r, k), LateStep(r, k), LateAt(r, k + 1))
  {
    assert ApprovedOthers(map[0 := HOLDER], "r", 0) == {};
    assert Table(r.claim)[2 := SECOND] == Crowd(r.claim, FIRST);
  }

  lemma LatePrepares(r: Race, k: nat)
    requires Fair(r) && 5 <= k < 8
    ensures Leads(LateAt(r, k), LateStep(r, k), LateAt(r, k + 1))
  {
    CrowdIds(r.claim, r.wanted);
  }

  lemma LateNarrows(r: Race)
    requires Fair(r)
    ensures Leads(LateAt(r, 8), Commit(3), LateAt(r, 9))
  {
    hide Fair, Save, ApprovedOthers, Crowd;
    CrowdRewritten(r.claim, r.byFirst, FIRST);
    assert map[0 := r.claim][0 := r.byFirst] == map[0 := r.byFirst];
    assert Next(LateAt(r, 8), Commit(3)).pending == LateAt(r, 9).pending;
  }

  lemma LateDecides(r: Race)
    requires Fair(r)
    ensures Leads(LateAt(r, 9), LateStep(r, 9), LateAt(r, 10))
  {
    hide Compatible;
    assert LateAt(r, 9).pending[1 := Deciding(r)] == LateAt(r, 10).pending;
  }

  lemma LateGrants(r: Race)
    requires Fair(r)
    ensures Leads(LateAt(r, 10), Commit(1), LateAt(r, 11))
  {
    hide Fair, Save, ApprovedOthers, Crowd;
    CrowdWon(r.byFirst, r.wanted);
    assert LateAt(r, 10).pending - {1} == LateAt(r, 11).pending;
  }

  lemma LateRewrites(r: Race)
    requires Fair(r)
    ensures Leads(LateAt(r, 11), LateStep(r, 11), LateAt(r, 12))
  {
    CrowdIds(r.byFirst, r.wanted);
  }

  lemma LateLands(r: Race)
    requires Fair(r)
    ensures Leads(LateAt(r, 12), Commit(4), LateAt(r, 13))
  {
    hide Fair, Save, ApprovedOthers, Crowd;
    CrowdRewritten(r.byFirst, r.byOther, Won(r.wanted));
    assert map[0 := r.claim][0 := r.byOther] == map[0 := r.byOther];
    assert Next(LateAt(r, 12), Commit(4)).pending == LateAt(r, 13).pending;
  }

  lemma LateLeads(r: Race, k: nat)
    requires Fair(r) && k < 13
    ensures Leads(LateAt(r, k), LateStep(r, k), LateAt(r, k + 1))
  {
    hide Leads, LateAt, LateStep;
    if k < 5 {
      LateBegins(r, k);
    } else if k < 8 {
      LatePrepares(r, k);
    } else {
      LateEnds(r, k);
    }
  }

  lemma LateEnds(r: Race, k: nat)
    requires Fair(r) && 8 <= k < 13
    ensures Leads(LateAt(r, k), LateStep(r, k), LateAt(r, k + 1))
  {
    hide Leads, LateAt;
    LateNarrows(r);
    LateDecides(r);
    LateGrants(r);
    LateRewrites(r);
    LateLands(r);
  }

  function LateStates(r: Race, n: nat): seq<State>
    requires n <= 13
  {
    seq(n + 1, k requires 0 <= k < n + 1 => LateAt(r, k))
  }

  function LateSteps(r: Race, n: nat): seq<Step>
    requires n <= 13
  {
    seq(n, k requires 0 <= k < n => LateStep(r, k))
  }

  lemma LateIsARun(r: Race, n: nat)
    requires Fair(r) && n <= 13
    ensures Linked(LateStates(r, n), LateSteps(r, n))
    ensures IsRun(EMPTY, LateSteps(r, n)) && After(EMPTY, LateSteps(r, n)) == LateAt(r, n)
  {
    hide Leads, LateAt, LateStep;
    forall k | 0 <= k < n ensures Leads(LateStates(r, n)[k], LateSteps(r, n)[k], LateStates(r, n)[k + 1]) {
      LateLeads(r, k);
    }
    Chain(LateStates(r, n), LateSteps(r, n));
    LateAtFirst(r);
  }

  lemma LateAtFirst(r: Race)
    ensures LateAt(r, 0) == EMPTY
  {
  }

  /** The only commits of the first twelve steps: two of plans nobody had, and a narrowing. */
  lemma LateIsSound(r: Race, k: nat)
    requires Fair(r) && Narrows(r.byFirst, r.claim) && k < 12
    ensures Enabled(LateAt(r, k), LateStep(r, k)) && Sound(LateAt(r, k), LateStep(r, k))
  {
    hide Narrows, Compatible, Save, Fair, Next;
    LateLeads(r, k);
  }

  /** The arrival's own code path. Up to its write every step is sound, and the table exclusive. It read
      the claim before another arrival narrowed it and was granted `f`; the holder cannot be asked from
      here; and narrowing the claim it read for itself, over whatever is stored by now, puts `f` back in
      the holder's plan beside the grant. */
  lemma LateNarrowingBreaksExclusivity()
    ensures IsRun(EMPTY, LateSteps(RACE, 12)) && AllSound(EMPTY, LateSteps(RACE, 12))
    ensures Inv(LateAt(RACE, 12)) && After(EMPTY, LateSteps(RACE, 12)) == LateAt(RACE, 12)
    ensures var table := LateAt(RACE, 12).leases;
            var a := NarrowOnArrival(table, {}, table, 0, RACE.claim, {}, Unreachable, Some({"g"}), []);
            && a.answer == Narrowed(OtherNarrowing())
            && IsRun(EMPTY, LateSteps(RACE, 13)) && After(EMPTY, LateSteps(RACE, 13)).leases == a.table
            && !Exclusive(a.table)
  {
    RaceIsFair();
    LateIsARun(RACE, 12);
    LateIsARun(RACE, 13);
    forall k | 0 <= k < 12
      ensures Enabled(LateStates(RACE, 12)[k], LateSteps(RACE, 12)[k])
              && Sound(LateStates(RACE, 12)[k], LateSteps(RACE, 12)[k])
    {
      LateIsSound(RACE, k);
    }
    SoundChain(LateStates(RACE, 12), LateSteps(RACE, 12));
    LateAtFirst(RACE);
    RunKeepsInv(EMPTY, LateSteps(RACE, 12));
    hide Inv, IsRun, After, AllSound, Fair, RACE;
    LateWrite();
  }

  lemma FileIsTakenBack(p: Plan)
    requires "f" in p.scope && p.scope["f"] == {} && !IsBlanket(p)
    ensures !Exclusive(Crowd(p, Won(WANTED)))
  {
    assert Covers(p, "f", "") && Covers(WANTED, "f", "");
    BothOnTheTable(Crowd(p, Won(WANTED)), p, WANTED);
  }

  /** The write of the second arrival, on the table it finds. */
  lemma LateWrite()
    ensures var table := LateAt(RACE, 12).leases;
            var a := NarrowOnArrival(table, {}, table, 0, RACE.claim, {}, Unreachable, Some({"g"}), []);
            a.answer == Narrowed(OtherNarrowing()) && LateAt(RACE, 13).leases == a.table && !Exclusive(a.table)
  {
    hide Save, ApprovedOthers, Exclusive, Compatible, Narrows, NarrowOnArrival, Fair, OtherNarrowing;
    LateFallsBack();
    CrowdRewritten(FirstNarrowing(), OtherNarrowing(), Won(WANTED));
    OtherTakesF();
    FileIsTakenBack(OtherNarrowing());
  }

  lemma LateFallsBack()
    ensures var table := Crowd(FirstNarrowing(), Won(WANTED));
            NarrowOnArrival(table, {}, table, 0, RACE.claim, {}, Unreachable, Some({"g"}), [])
            == var (outcome, table') := Save(table, 0, Granted(OtherNarrowing()), ApprovedOthers(table, "r", 0), true);
               if outcome.Saved? then Arrival(Narrowed(OtherNarrowing()), table, table', {}) else Arrival(Stands, table, table, {})
  {
    hide Save, ApprovedOthers, ReleasedTo, Without, FirstNarrowing;
    assert Files(RACE.claim) == {"f"};
  }

  lemma OtherTakesF()
    ensures "f" in OtherNarrowing().scope && OtherNarrowing().scope["f"] == {} && !IsBlanket(OtherNarrowing())
  {
    RaceIsFair();
  }

  // ----- A conversion abandoned between two readings

  /** On one reading of an exclusive table a claim still stored has no admitted neighbour, so no file of
      its holder's is occupied elsewhere: by the time one is, the claim has been rewritten. */
  lemma OccupiedMeansRewritten(near: Leases, id: LeaseId, f: File)
    requires BlanketAlone(near) && id in near && Executes(near[id])
    requires OccupiedElsewhere(near, ApprovedOthers(near, near[id].repository, id), f)
    ensures !IsBlanket(PlanOn(near, id))
  {
    var i :| i in ApprovedOthers(near, near[id].repository, id);
  }

  /** The poll's freeze, its two readings apart. */
  lemma PollWrite(hearing: Hearing)
    ensures var seen, near := Crowd(RACE.claim, FIRST), Crowd(FirstNarrowing(), Won(WANTED));
            var z := FreezeClaim(Turn(near, seen, near, hearing, Some({"f"})), {}, 0, RACE.claim, {"f"}, Said({"f"}, {"s"}));
            && 0 in seen && 1 in near && Executes(near[1])
            && OccupiedElsewhere(near, {1}, "f") && Conversion(near, {1}, RACE.claim, {"f"}, {"s"}, {"f"}) == None
            && z.answer == Became(Freeze(RACE.claim, {"f"})) && z.table == Crowd(Freeze(RACE.claim, {"f"}), Won(WANTED))
  {
    hide Save, ApprovedOthers, FirstNarrowing, Joined, Approves;
    var near := Crowd(FirstNarrowing(), Won(WANTED));
    CrowdRewritten(FirstNarrowing(), Freeze(RACE.claim, {"f"}), Won(WANTED));
    CrowdIsJoined();
    assert PlanOn(near, 1) == WANTED && "f" in Files(WANTED);
    assert OccupiedElsewhere(near, {1}, "f");
    assert RACE.claim.scope - {} == RACE.claim.scope;
  }

  lemma CrowdIsJoined()
    ensures Joined(Crowd(FirstNarrowing(), Won(WANTED)), "r", 0)
  {
    assert Crowd(FirstNarrowing(), Won(WANTED))[1].active;
  }

  /** And it comes to that. The holder's lease is read while it still says the claim, its neighbours once
      the first arrival has been granted `f`; the holder is by now writing in `f`, so its answer is
      abandoned, and the plain freeze takes the file. */
  lemma ConversionIsAbandoned(hearing: Hearing)
    ensures IsRun(EMPTY, LateSteps(RACE, 8)) && IsRun(EMPTY, LateSteps(RACE, 11))
    ensures LateSteps(RACE, 8) == LateSteps(RACE, 11)[..8]
    ensures var seen, near := After(EMPTY, LateSteps(RACE, 8)).leases, After(EMPTY, LateSteps(RACE, 11)).leases;
            var z := FreezeClaim(Turn(near, seen, near, hearing, Some({"f"})), {}, 0, RACE.claim, {"f"}, Said({"f"}, {"s"}));
            && 0 in seen && 1 in near && Executes(near[1])
            && OccupiedElsewhere(near, {1}, "f") && Conversion(near, {1}, RACE.claim, {"f"}, {"s"}, {"f"}) == None
            && z.answer == Became(Freeze(RACE.claim, {"f"})) && !Exclusive(z.table)
  {
    hide IsRun, After, Fair, FreezeClaim, Conversion, OccupiedElsewhere, Exclusive, Compatible, Narrows, FirstNarrowing,
         OtherNarrowing;
    RaceIsFair();
    LateIsARun(RACE, 8);
    LateIsARun(RACE, 11);
    PollWrite(hearing);
    FileIsTakenBack(Freeze(RACE.claim, {"f"}));
  }

  // ----- A file given away unread

  /** A second arrival has read the claim, the first has had it narrowed to `g`, and the holder goes on to
      write in `f`. The second sees that, and is let into `f` all the same. */
  lemma DirtyFileIsGivenAway(hearing: Hearing)
    ensures IsRun(EMPTY, LateSteps(RACE, 9)) && Behind(RACE) in After(EMPTY, LateSteps(RACE, 9)).pending.Values
    ensures var table := After(EMPTY, LateSteps(RACE, 9)).leases;
            var turn := Turn(table, table, table, hearing, Some({"f"}));
            var a := NarrowOnArrival(table, {}, table, 0, Behind(RACE).view[0], {"f"}, Silent, Some({"f"}), [turn]);
            && a.answer == Narrowed(FirstNarrowing()) && a.table == a.found
            && Compatible(Plan("c", map["f" := {}], Ordinary), FirstNarrowing())
  {
    RaceIsFair();
    LateIsARun(RACE, 9);
    assert LateAt(RACE, 9).pending[2] == Behind(RACE);
    hide NarrowOnArrival, IsRun, After, Compatible, Fair;
    var table := Crowd(FirstNarrowing(), FIRST);
    StoredAnswerGivesADirtyFileAway(table, 0, FirstNarrowing(), hearing, "f");
    assert "f" !in Files(FirstNarrowing());
  }
}
