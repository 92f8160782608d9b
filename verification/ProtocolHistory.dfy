/** A history of the lease table, write by write, as a run of the interleaved protocol.

A write is known by when what it was decided on was read. Every reading that is still open at a
moment is a pending operation of the protocol there, under the number of its write.
*/
module ProtocolHistory {
  import opened Optional
  import opened Plans
  import opened LeaseStore
  import opened AdmissionProtocol

  datatype Adoption = Adoption(at: nat, holder: LeaseId)

  datatype Act =
    | Minted(id: LeaseId, lease: Lease)
    | Over(id: LeaseId)
    | Idle
    /** Decided on the admitted plans as they were at `since`, but for one holder's, looked up later. */
    | Decision(since: nat, adoption: Option<Adoption>, id: LeaseId, submission: Submission, replace: bool)
    | ClaimMade(since: nat, id: LeaseId, estimate: set<File>)
    | Rewritten(id: LeaseId, plan: Plan)

  predicate Opens(act: Act) {
    act.Decision? || act.ClaimMade?
  }

  function IdsOf(tables: seq<Leases>, act: Act): set<LeaseId>
    requires act.Decision? && act.since < |tables| && act.id in tables[act.since]
  {
    ApprovedOthers(tables[act.since], tables[act.since][act.id].repository, act.id)
  }

  /** The reading was one the protocol allows, and made before the write. */
  ghost predicate ReadOk(tables: seq<Leases>, act: Act, k: nat)
    requires k < |tables|
  {
    match act
    case Decision(since, adoption, id, _, _) =>
      && since <= k && id in tables[since] && tables[since][id].active
      && (adoption.Some? ==>
            var m, h := adoption.value.at, adoption.value.holder;
            since <= m <= k && h in IdsOf(tables, act) && h in tables[m] && Executes(tables[m][h]))
    case ClaimMade(since, id, _) =>
      && since <= k && id in tables[since] && tables[since][id].active && tables[since][id].submission.None?
      && forall l :: l in tables[since] && l != id && tables[since][l].active
                     ==> tables[since][l].repository != tables[since][id].repository
    case _ => true
  }

  /** The plans a decision has looked at by some moment. */
  ghost function ViewAt(tables: seq<Leases>, act: Act, k: int): map<LeaseId, Plan>
    requires act.Decision? && tables != [] && ReadOk(tables, act, |tables| - 1)
  {
    var view := ViewOf(tables[act.since], IdsOf(tables, act));
    if act.adoption.Some? && act.adoption.value.at <= k
    then view[act.adoption.value.holder := PlanOn(tables[act.adoption.value.at], act.adoption.value.holder)] else view
  }

  ghost function Claimed(tables: seq<Leases>, act: Act): Submission
    requires act.ClaimMade? && act.since < |tables| && act.id in tables[act.since]
  {
    Submission(BlanketPlan(tables[act.since][act.id].task, act.estimate), GRANTED)
  }

  /** The pending operation a reading is, while it is open. */
  ghost function PendingAt(tables: seq<Leases>, act: Act, k: int): Pending
    requires Opens(act) && tables != [] && ReadOk(tables, act, |tables| - 1)
  {
    if act.Decision? then Viewed(act.id, IdsOf(tables, act), ViewAt(tables, act, k))
    else Decided(act.id, {}, map[], Claimed(tables, act), false)
  }

  /** The write leaves the next table, and was decided as the protocol demands. */
  ghost predicate ActOk(tables: seq<Leases>, act: Act, k: nat)
    requires k + 1 < |tables|
  {
    var table, next := tables[k], tables[k + 1];
    ReadOk(tables, act, k) &&
    match act
    case Minted(id, lease) => id !in table && lease.active && lease.submission.None? && next == table[id := lease]
    case Over(id) => id in table && next == table[id := table[id].(active := false)]
    case Idle => next == table
    case Decision(since, _, id, submission, replace) =>
      && next == Save(table, id, submission, IdsOf(tables, act), replace).1
      && (IsApproved(submission.admission) ==>
            ArbitratedAgainst(tables[since], Decided(id, IdsOf(tables, act), ViewAt(tables, act, k), submission, replace)))
      && (!IsApproved(submission.admission) ==> !replace)
    case ClaimMade(_, id, _) => next == Save(table, id, Claimed(tables, act), {}, false).1
    case Rewritten(id, plan) =>
      && id in table
      && Save(table, id, Submission(plan, GRANTED), ApprovedOthers(table, table[id].repository, id), true) == (Saved, next)
  }

  /** What is written narrows what it replaces; a decision may also replace what no open reading holds. */
  ghost predicate ActSound(tables: seq<Leases>, acts: seq<Act>, k: nat)
    requires k < |acts| && |tables| == |acts| + 1 && ActOk(tables, acts[k], k)
  {
    var table := tables[k];
    match acts[k]
    case Decision(_, _, id, submission, _) =>
      id in table && Executes(table[id]) && tables[k + 1] != table ==>
        Narrows(submission.plan, PlanOn(table, id)) || Unwatched(tables, acts, k, id)
    case Rewritten(id, plan) => Executes(table[id]) && Narrows(plan, PlanOn(table, id))
    case _ => true
  }

  /** No decision whose reading is open at this write has looked at the lease. */
  ghost predicate Unwatched(tables: seq<Leases>, acts: seq<Act>, k: nat, id: LeaseId)
    requires |tables| == |acts| + 1
  {
    forall e :: k < e < |acts| && acts[e].Decision? && acts[e].since <= k && acts[e].id in tables[acts[e].since]
      ==> id !in IdsOf(tables, acts[e])
  }

  ghost predicate History(tables: seq<Leases>, acts: seq<Act>) {
    && |tables| == |acts| + 1 && tables[0] == map[]
    && forall k :: 0 <= k < |acts| ==> ActOk(tables, acts[k], k)
  }

  // ----- Leases do not change hands

  ghost predicate Keeps(a: Leases, b: Leases) {
    forall l :: l in a ==> l in b && b[l].repository == a[l].repository && b[l].branch == a[l].branch && b[l].task == a[l].task
  }

  lemma ActKeeps(tables: seq<Leases>, act: Act, k: nat)
    requires k + 1 < |tables| && ActOk(tables, act, k)
    ensures Keeps(tables[k], tables[k + 1])
  {
    hide ArbitratedAgainst, ViewAt;
  }

  lemma {:induction false} HistoryKeeps(tables: seq<Leases>, acts: seq<Act>, i: nat, j: nat)
    requires History(tables, acts) && i <= j < |tables|
    ensures Keeps(tables[i], tables[j])
    decreases j
  {
    hide ActOk, ArbitratedAgainst;
    if i < j {
      HistoryKeeps(tables, acts, i, j - 1);
      ActKeeps(tables, acts[j - 1], j - 1);
    }
  }

  // ----- Runs

  ghost predicate SoundlyReached(s: State) {
    exists steps :: IsRun(EMPTY, steps) && AllSound(EMPTY, steps) && After(EMPTY, steps) == s
  }

  lemma {:induction false} OneMoreStep(s: State, steps: seq<Step>, step: Step)
    requires IsRun(s, steps) && AllSound(s, steps)
    requires Enabled(After(s, steps), step) && Sound(After(s, steps), step)
    ensures IsRun(s, steps + [step]) && AllSound(s, steps + [step])
    ensures After(s, steps + [step]) == Next(After(s, steps), step)
    decreases |steps|
  {
    hide Next, Enabled, Sound;
    if steps == [] {
      assert steps + [step] == [step];
      assert [step][1..] == [];
    } else {
      OneMoreStep(Next(s, steps[0]), steps[1..], step);
      assert (steps + [step])[1..] == steps[1..] + [step];
    }
  }

  lemma Steps(s: State, step: Step)
    requires SoundlyReached(s) && Enabled(s, step) && Sound(s, step)
    ensures SoundlyReached(Next(s, step))
  {
    hide Next, Enabled, Sound;
    var steps :| IsRun(EMPTY, steps) && AllSound(EMPTY, steps) && After(EMPTY, steps) == s;
    OneMoreStep(EMPTY, steps, step);
  }

  lemma ReachedIsExclusive(s: State)
    requires SoundlyReached(s)
    ensures Exclusive(s.leases) && BlanketAlone(s.leases)
  {
    hide Exclusive, BlanketAlone;
    var steps :| IsRun(EMPTY, steps) && AllSound(EMPTY, steps) && After(EMPTY, steps) == s;
    AdmittedPlansAreExclusive(steps);
  }

  // ----- The state of the protocol at each moment

  ghost predicate IsOpen(acts: seq<Act>, e: nat, k: nat) {
    k <= e < |acts| && Opens(acts[e]) && acts[e].since <= k
  }

  lemma ReadsAreOk(tables: seq<Leases>, acts: seq<Act>, e: nat)
    requires History(tables, acts) && e < |acts|
    ensures ReadOk(tables, acts[e], |tables| - 1)
  {
    hide ArbitratedAgainst, Save;
    assert ActOk(tables, acts[e], e);
  }

  ghost function At(tables: seq<Leases>, acts: seq<Act>, k: nat): State
    requires History(tables, acts) && k < |tables|
  {
    Amid(tables, acts, k, |acts|)
  }

  /** Between two moments: the first `m` readings are as they are at the second. */
  ghost function Amid(tables: seq<Leases>, acts: seq<Act>, k: nat, m: nat): State
    requires History(tables, acts) && k < |tables|
  {
    State(tables[k], map e: nat | e < |acts| && IsAmid(acts, e, k, m) :: StageOf(tables, acts, e, k, m))
  }

  /** Open at `k`, or for the later readings open just before and not yet committed. */
  ghost predicate IsAmid(acts: seq<Act>, e: nat, k: nat, m: nat) {
    IsOpen(acts, e, k) && (e < m || acts[e].since < k)
  }

  ghost function StageOf(tables: seq<Leases>, acts: seq<Act>, e: nat, k: nat, m: nat): Pending
    requires History(tables, acts) && k < |tables| && e < |acts| && Opens(acts[e])
  {
    ReadsAreOk(tables, acts, e);
    PendingAt(tables, acts[e], if e < m then k else k - 1)
  }

  lemma StartsEmpty(tables: seq<Leases>, acts: seq<Act>)
    requires History(tables, acts)
    ensures At(tables, acts, 0) == EMPTY && SoundlyReached(EMPTY)
  {
    forall e: nat | e < |acts| ensures !IsOpen(acts, e, 0) {
      ReadsAreOk(tables, acts, e);
    }
    assert At(tables, acts, 0).pending == map[];
    assert IsRun(EMPTY, []) && AllSound(EMPTY, []) && After(EMPTY, []) == EMPTY;
  }

  // ----- Between two writes: readings are opened, and looked up again

  /** The stage of a reading changes only where it looks its holder up again. */
  lemma StageMoves(tables: seq<Leases>, acts: seq<Act>, e: nat, k: nat)
    requires History(tables, acts) && k < |tables| && e < |acts| && Opens(acts[e]) && ReadOk(tables, acts[e], |tables| - 1)
    ensures var before, now := PendingAt(tables, acts[e], k - 1), PendingAt(tables, acts[e], k);
            if acts[e].Decision? && acts[e].adoption.Some? && acts[e].adoption.value.at == k then
              var h := acts[e].adoption.value.holder;
              && before.Viewed? && h in before.ids && h in tables[k] && Executes(tables[k][h])
              && now == Viewed(before.lease, before.ids, before.view[h := PlanOn(tables[k], h)])
            else now == before
  {
    hide ActOk;
  }

  lemma OthersStand(tables: seq<Leases>, acts: seq<Act>, k: nat, m: nat)
    requires History(tables, acts) && k < |tables| && m < |acts|
    ensures var a, b := Amid(tables, acts, k, m).pending, Amid(tables, acts, k, m + 1).pending;
            && (forall e: nat :: e != m ==> (e in a <==> e in b))
            && (forall e: nat :: e != m && e in a ==> b[e] == a[e])
            && (m in a <==> IsOpen(acts, m, k) && acts[m].since < k)
            && (m in b <==> IsOpen(acts, m, k))
            && (m in a ==> a[m] == StageOf(tables, acts, m, k, m))
            && (m in b ==> b[m] == StageOf(tables, acts, m, k, m + 1))
  {
    hide IsOpen, History, PendingAt;
  }

  /** One reading is opened, or brought up to date. */
  lemma ReadingAdvances(tables: seq<Leases>, acts: seq<Act>, k: nat, m: nat)
    requires History(tables, acts) && k < |tables| && m < |acts| && SoundlyReached(Amid(tables, acts, k, m))
    ensures SoundlyReached(Amid(tables, acts, k, m + 1))
  {
    hide History, SoundlyReached, ActOk, ReadOk, PendingAt, ViewAt, Amid, ArbitratedAgainst;
    OthersStand(tables, acts, k, m);
    var s, t := Amid(tables, acts, k, m), Amid(tables, acts, k, m + 1);
    AmidTables(tables, acts, k, m);
    AmidTables(tables, acts, k, m + 1);
    if !IsOpen(acts, m, k) {
      assert s.pending == t.pending;
    } else {
      ReadsAreOk(tables, acts, m);
      StageMoves(tables, acts, m, k);
      var before := PendingAt(tables, acts[m], k - 1);
      var mid := State(s.leases, s.pending[m := before]);
      if acts[m].since == k {
        Opened(tables, acts, k, m, s);
      } else {
        assert s.pending[m := before] == s.pending;
      }
      assert SoundlyReached(mid);
      if acts[m].Decision? && acts[m].adoption.Some? && acts[m].adoption.value.at == k {
        var h := acts[m].adoption.value.holder;
        Steps(mid, AdoptNarrowed(m, h));
        assert Next(mid, AdoptNarrowed(m, h)).pending == t.pending;
      } else {
        assert mid.pending == t.pending;
      }
    }
  }

  lemma AmidTables(tables: seq<Leases>, acts: seq<Act>, k: nat, m: nat)
    requires History(tables, acts) && k < |tables|
    ensures Amid(tables, acts, k, m).leases == tables[k]
  {
  }

  lemma Opened(tables: seq<Leases>, acts: seq<Act>, k: nat, m: nat, s: State)
    requires History(tables, acts) && k < |tables| && m < |acts| && IsOpen(acts, m, k) && acts[m].since == k
    requires s.leases == tables[k] && m !in s.pending && SoundlyReached(s) && ReadOk(tables, acts[m], |tables| - 1)
    ensures SoundlyReached(State(s.leases, s.pending[m := PendingAt(tables, acts[m], k - 1)]))
  {
    hide SoundlyReached, History, ActOk;
    match acts[m]
    case Decision(_, adoption, id, _, _) => Steps(s, Read(m, id));
    case ClaimMade(_, id, estimate) => Steps(s, ClaimRepository(m, id, estimate));
    case _ =>
  }

  lemma {:induction false} ReadingsAdvance(tables: seq<Leases>, acts: seq<Act>, k: nat, m: nat)
    requires History(tables, acts) && k < |tables| && m <= |acts| && SoundlyReached(Amid(tables, acts, k, 0))
    ensures SoundlyReached(Amid(tables, acts, k, m))
    decreases m
  {
    hide History, SoundlyReached, Amid;
    if m > 0 {
      ReadingsAdvance(tables, acts, k, m - 1);
      ReadingAdvances(tables, acts, k, m - 1);
    }
  }

  // ----- The write

  lemma CommitLeaves(tables: seq<Leases>, acts: seq<Act>, k: nat)
    requires History(tables, acts) && k < |acts|
    ensures At(tables, acts, k).leases == tables[k] && Amid(tables, acts, k + 1, 0).leases == tables[k + 1]
    ensures Amid(tables, acts, k + 1, 0).pending == At(tables, acts, k).pending - {k}
    ensures k in At(tables, acts, k).pending <==> Opens(acts[k])
    ensures Opens(acts[k]) ==>
      ReadOk(tables, acts[k], |tables| - 1) && At(tables, acts, k).pending[k] == PendingAt(tables, acts[k], k)
  {
    hide History, ActOk, ReadOk, PendingAt;
    ReadsAreOk(tables, acts, k);
    ActIsTimely(tables, acts, k);
  }

  lemma ActIsTimely(tables: seq<Leases>, acts: seq<Act>, k: nat)
    requires History(tables, acts) && k < |acts|
    ensures Opens(acts[k]) ==> acts[k].since <= k
  {
    assert ActOk(tables, acts[k], k);
  }

  lemma WriteIsAStep(tables: seq<Leases>, acts: seq<Act>, k: nat)
    requires History(tables, acts) && k < |acts| && ActSound(tables, acts, k)
    requires SoundlyReached(At(tables, acts, k))
    ensures SoundlyReached(Amid(tables, acts, k + 1, 0))
  {
    assert ActOk(tables, acts[k], k) && |tables| == |acts| + 1;
    hide History, SoundlyReached, ReadOk, PendingAt, At, Amid, ArbitratedAgainst;
    CommitLeaves(tables, acts, k);
    var s, t := At(tables, acts, k), Amid(tables, acts, k + 1, 0);
    match acts[k]
    case Minted(id, lease) => Steps(s, Mint(id, lease)); assert t.pending == s.pending;
    case Over(id) => Steps(s, End(id)); assert t.pending == s.pending;
    case Idle => assert t.pending == s.pending;
    case Decision(_, _, _, _, _) => DecisionCommits(tables, acts, k, s);
    case ClaimMade(_, _, _) => ClaimCommits(tables, acts, k, s);
    case Rewritten(id, plan) => RewriteCommits(tables, acts, k, s); assert t.pending == s.pending;
  }

  lemma ClaimCommits(tables: seq<Leases>, acts: seq<Act>, k: nat, s: State)
    requires History(tables, acts) && k < |acts| && acts[k].ClaimMade? && SoundlyReached(s) && s.leases == tables[k]
    requires ReadOk(tables, acts[k], |tables| - 1) && k in s.pending && s.pending[k] == PendingAt(tables, acts[k], k)
    ensures SoundlyReached(State(tables[k + 1], s.pending - {k}))
  {
    hide SoundlyReached;
    assert ActOk(tables, acts[k], k);
    Steps(s, Commit(k));
  }

  lemma RewriteCommits(tables: seq<Leases>, acts: seq<Act>, k: nat, s: State)
    requires History(tables, acts) && k < |acts| && acts[k].Rewritten? && SoundlyReached(s) && s.leases == tables[k]
    requires k !in s.pending && ActSound(tables, acts, k)
    ensures SoundlyReached(State(tables[k + 1], s.pending))
  {
    hide SoundlyReached, Narrows;
    assert ActOk(tables, acts[k], k);
    var prepare := Rewrite(k, acts[k].id, acts[k].plan, None);
    Steps(s, prepare);
    Steps(Next(s, prepare), Commit(k));
    assert Next(Next(s, prepare), Commit(k)).pending == s.pending;
  }

  /** Where no open reading has looked at the lease, nobody in the protocol is deciding on it. */
  lemma UnwatchedIsUnread(tables: seq<Leases>, acts: seq<Act>, k: nat, o: nat)
    requires History(tables, acts) && k < |acts| && acts[k].Decision? && Unwatched(tables, acts, k, acts[k].id)
    requires o in At(tables, acts, k).pending && o != k
    ensures acts[k].id !in At(tables, acts, k).pending[o].ids
  {
    hide ActOk, ViewAt;
    ReadsAreOk(tables, acts, o);
    assert IsOpen(acts, o, k);
  }

  lemma UnwatchedLeavesUnread(tables: seq<Leases>, acts: seq<Act>, k: nat, s: State)
    requires History(tables, acts) && k < |acts| && acts[k].Decision? && Unwatched(tables, acts, k, acts[k].id)
    requires k in s.pending && s.pending[k].lease == acts[k].id
    requires forall o :: o in s.pending && o != k ==>
      o in At(tables, acts, k).pending && s.pending[o] == At(tables, acts, k).pending[o]
    ensures Unread(s, k)
  {
    hide At, History, Unwatched, ActOk;
    forall o | o in s.pending && o != k ensures acts[k].id !in s.pending[o].ids {
      UnwatchedIsUnread(tables, acts, k, o);
    }
  }

  /** The decision replaces nothing, or what it narrows, or what nobody is deciding on. */
  lemma DecisionIsSound(tables: seq<Leases>, acts: seq<Act>, k: nat, s: State)
    requires History(tables, acts) && k < |acts| && acts[k].Decision? && ActSound(tables, acts, k) && ActOk(tables, acts[k], k)
    requires s.leases == tables[k] && k in s.pending && s.pending[k].Decided? && s.pending[k].lease == acts[k].id
    requires s.pending[k].submission == acts[k].submission && s.pending[k].replace == acts[k].replace
    requires s.pending[k].ids == IdsOf(tables, acts[k])
    requires forall o :: o in s.pending && o != k ==>
      o in At(tables, acts, k).pending && s.pending[o] == At(tables, acts, k).pending[o]
    ensures Enabled(s, Commit(k)) && Sound(s, Commit(k))
  {
    assert |tables| == |acts| + 1;
    hide ArbitratedAgainst, Narrows, At, History, ViewAt, Unwatched, Unread, ReadOk;
    NarrowsReflexive(acts[k].submission.plan);
    if Unwatched(tables, acts, k, acts[k].id) {
      UnwatchedLeavesUnread(tables, acts, k, s);
    }
  }

  lemma DecisionCommits(tables: seq<Leases>, acts: seq<Act>, k: nat, s: State)
    requires History(tables, acts) && k < |acts| && acts[k].Decision? && ActSound(tables, acts, k)
    requires s == At(tables, acts, k) && SoundlyReached(s)
    requires s.leases == tables[k] && ReadOk(tables, acts[k], |tables| - 1)
    requires k in s.pending && s.pending[k] == PendingAt(tables, acts[k], k)
    ensures SoundlyReached(State(tables[k + 1], s.pending - {k}))
  {
    hide SoundlyReached, Narrows, Compatible, At;
    assert ActOk(tables, acts[k], k);
    var a := acts[k];
    HistoryKeeps(tables, acts, a.since, k);
    var decide := Decide(k, a.submission, a.replace);
    Steps(s, decide);
    DecisionIsSound(tables, acts, k, Next(s, decide));
    Steps(Next(s, decide), Commit(k));
    assert Next(Next(s, decide), Commit(k)).pending == s.pending - {k};
  }

  /** Every moment of a history whose writes are sound is a state some sound run of the protocol reaches;
      so at every moment the admitted plans of different tasks are exclusive, and claims alone. */
  lemma {:induction false} HistoryIsReached(tables: seq<Leases>, acts: seq<Act>, k: nat)
    requires History(tables, acts) && k <= |acts| && forall e :: 0 <= e < |acts| ==> ActSound(tables, acts, e)
    ensures SoundlyReached(At(tables, acts, k)) && At(tables, acts, k).leases == tables[k]
    ensures Exclusive(tables[k]) && BlanketAlone(tables[k])
    decreases k
  {
    assert |tables| == |acts| + 1;
    hide History, SoundlyReached, ActSound, Exclusive, BlanketAlone;
    if k == 0 {
      StartsEmpty(tables, acts);
    } else {
      HistoryIsReached(tables, acts, k - 1);
      WriteIsAStep(tables, acts, k - 1);
      ReadingsAdvance(tables, acts, k, |acts|);
    }
    AmidTables(tables, acts, k, |acts|);
    ReachedIsExclusive(At(tables, acts, k));
  }
}
