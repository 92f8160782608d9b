/** Whole histories of calls on one table, as runs of the interleaved protocol.

Any number of authorities claim, freeze, narrow and admit, each on tables it read when it did; what
every call leaves is the table the next one meets.
*/
module AdmissionHistory {
  import opened Optional
  import opened Plans
  import opened LeaseStore
  import opened PlanDecision
  import opened HolderNarrowing
  import opened PlanAuthority
  import Trails = AdmissionTrail
  import Runs = AdmissionRuns
  import P = AdmissionProtocol
  import H = ProtocolHistory

  /** Moments are positions in the history: `since` is when a call read the table, `adopted` when it
      looked up the holder it had narrowed. */
  datatype Deed =
    | Minted(id: LeaseId, lease: Lease)
    | Over(id: LeaseId)
    | Claims(since: nat, enabled: bool, mine: Option<LeaseId>, task: TaskId, estimate: set<File>, crossing: bool)
    | Freezes(turn: Turn, asked: set<TaskId>, id: LeaseId, plan: Plan, estimate: set<File>, ask: Ask)
    | Arrives(asked: set<TaskId>, seen: Leases, id: LeaseId, holder: Plan, wanted: set<File>, ask: Ask,
              first: Option<set<File>>, turns: seq<Turn>)
    | Admits(since: nat, adopted: nat, call: Call, trails: map<TaskId, Trails.Trail>, waiting: map<TaskId, Millis>,
             maxWait: Millis)

  function DeskOf(table: Leases, d: Deed): Desk
    requires d.Admits?
  {
    Desk(table, d.trails, d.waiting)
  }

  function Frozen(table: Leases, d: Deed): Freezing
    requires d.Freezes?
  {
    FreezeClaim(d.turn.(table := table), d.asked, d.id, d.plan, d.estimate, d.ask)
  }

  function Arrived(table: Leases, d: Deed): Arrival
    requires d.Arrives? && (!d.ask.Unreachable? ==> d.turns != [])
  {
    NarrowOnArrival(table, d.asked, d.seen, d.id, d.holder, d.wanted, d.ask, d.first, d.turns)
  }

  /** The decision is made with a holder's narrowed plan in place of its claim. */
  predicate Adopts(c: Call) {
    Standing(c).0.None? && FirstBlanket(c.reading.active).Some?
  }

  /** The narrowed plan is what the holder's lease holds, admitted. */
  predicate HoldsNarrowed(table: Leases, c: Call)
    requires Adopts(c)
  {
    var e := FirstBlanket(c.reading.active).value;
    e.lease.Some? && Holds(table, e.lease.value, c.narrowed.value.0)
  }

  /** The call gets as far as deciding anything. */
  predicate Decides(c: Call) {
    c.lease.Some? && c.reading.live
  }

  /** What the call read, the table said; what it was answered is lawful; a holder it narrowed was left
      with what it says. */
  ghost predicate CallOk(tables: seq<Leases>, since: nat, adopted: nat, c: Call, k: nat)
    requires since <= adopted <= k < |tables|
  {
    Decides(c) ==>
      && ReadFrom(tables[since], c) && tables[since][c.lease.value].active && Lawful(c)
      && (IsBlanket(c.request.plan) ==> c.reading.ids == {})
      && (c.narrowed.Some? ==> !IsBlanket(c.narrowed.value.0))
      && (Adopts(c) ==> HoldsNarrowed(tables[adopted], c))
  }

  ghost predicate DeedOk(tables: seq<Leases>, d: Deed, k: nat)
    requires k + 1 < |tables|
  {
    var table, next := tables[k], tables[k + 1];
    match d
    case Minted(id, lease) => id !in table && lease.active && lease.submission.None? && next == table[id := lease]
    case Over(id) => id in table && next == table[id := table[id].(active := false)]
    case Claims(since, enabled, lease, task, estimate, crossing) =>
      && since <= k
      && (lease.Some? && lease.value in tables[since] ==> tables[since][lease.value].task == task)
      && next == ClaimWhole(table, tables[since], enabled, lease, task, estimate, crossing).1
    case Freezes(_, _, _, _, _, _) => next == Frozen(table, d).table
    case Arrives(_, _, _, _, _, ask, _, turns) =>
      && (!ask.Unreachable? ==> turns != [])
      && (if Arrived(table, d).table == Arrived(table, d).found then next == table
          else Arrived(table, d).found == table && next == Arrived(table, d).table)
    case Admits(since, adopted, c, _, _, maxWait) =>
      && since <= adopted <= k && CallOk(tables, since, adopted, c, k)
      && next == Admit(DeskOf(table, d), c, maxWait).1.leases
  }

  /** What is stored next is admitted, and narrows what was. */
  ghost predicate NarrowsNext(table: Leases, next: Leases, id: LeaseId) {
    && id in table && Executes(table[id]) && id in next && Executes(next[id])
    && Narrows(PlanOn(next, id), PlanOn(table, id))
  }

  /** No call that has read the table and not yet written has this lease in view. */
  predicate Unwatched(deeds: seq<Deed>, k: nat, id: LeaseId) {
    forall e :: k < e < |deeds| && deeds[e].Admits? && deeds[e].since <= k && Decides(deeds[e].call)
      ==> id !in deeds[e].call.reading.ids
  }

  /** A freeze or a narrowing on arrival that writes narrows what is stored. A live revision does, or
      replaces what nobody is deciding on. Nothing else replaces an admitted plan. */
  ghost predicate DeedSound(tables: seq<Leases>, deeds: seq<Deed>, k: nat)
    requires k < |deeds| && |tables| == |deeds| + 1
  {
    var table, next := tables[k], tables[k + 1];
    match deeds[k]
    case Freezes(_, _, id, _, _, _) => next == table || NarrowsNext(table, next, id)
    case Arrives(_, _, id, _, _, _, _, _) => next == table || NarrowsNext(table, next, id)
    case Admits(_, _, c, _, _, _) =>
      next != table && Decides(c) && c.lease.value in table && Executes(table[c.lease.value]) ==>
        NarrowsNext(table, next, c.lease.value) || Unwatched(deeds, k, c.lease.value)
    case _ => true
  }

  ghost predicate Story(tables: seq<Leases>, deeds: seq<Deed>) {
    && |tables| == |deeds| + 1 && tables[0] == map[]
    && forall k :: 0 <= k < |deeds| ==> DeedOk(tables, deeds[k], k) && DeedSound(tables, deeds, k)
  }

  // ----- Each call as one write of the protocol

  /** What a call does, seen from the protocol. */
  ghost function ActOf(tables: seq<Leases>, d: Deed, k: nat): H.Act
    requires k + 1 < |tables| && DeedOk(tables, d, k)
  {
    var table := tables[k];
    match d
    case Minted(id, lease) => H.Minted(id, lease)
    case Over(id) => H.Over(id)
    case Claims(since, enabled, lease, _, estimate, crossing) =>
      if MayClaim(tables[since], enabled, lease, crossing) then H.ClaimMade(since, lease.value, estimate) else H.Idle
    case Freezes(_, _, id, _, _, _) =>
      if tables[k + 1] != table && Frozen(table, d).answer.Became? then H.Rewritten(id, Frozen(table, d).answer.plan) else H.Idle
    case Arrives(_, _, id, _, _, _, _, _) =>
      if tables[k + 1] != table && Arrived(table, d).answer.Narrowed? then H.Rewritten(id, Arrived(table, d).answer.plan)
      else H.Idle
    case Admits(since, adopted, c, _, _, _) =>
      var attempt := Attempt(DeskOf(table, d), c);
      if attempt.None? then H.Idle
      else
        H.Decision(since, if Adopts(c) then Some(H.Adoption(adopted, HolderOf(c))) else None, c.lease.value,
                   attempt.value, c.request.revising)
  }

  function HolderOf(c: Call): LeaseId
    requires Adopts(c)
  {
    var e := FirstBlanket(c.reading.active).value;
    if e.lease.Some? then e.lease.value else 0
  }

  lemma ClaimIsAnAct(tables: seq<Leases>, d: Deed, k: nat)
    requires k + 1 < |tables| && d.Claims? && DeedOk(tables, d, k)
    ensures H.ActOk(tables, ActOf(tables, d, k), k)
  {
    var seen := tables[d.since];
    if MayClaim(seen, d.enabled, d.mine, d.crossing) {
      forall l | l in seen && l != d.mine.value && seen[l].active
        ensures seen[l].repository != seen[d.mine.value].repository
      {
        assert !Joined(seen, seen[d.mine.value].repository, d.mine.value);
      }
    }
  }

  lemma FreezeIsAnAct(tables: seq<Leases>, d: Deed, k: nat)
    requires k + 1 < |tables| && d.Freezes? && DeedOk(tables, d, k)
    ensures H.ActOk(tables, ActOf(tables, d, k), k)
  {
    if tables[k + 1] != tables[k] {
      FreezeIsOneSave(d.turn.(table := tables[k]), d.asked, d.id, d.plan, d.estimate, d.ask);
    }
    hide FreezeClaim;
  }

  lemma ArrivalIsAnAct(tables: seq<Leases>, d: Deed, k: nat)
    requires k + 1 < |tables| && d.Arrives? && DeedOk(tables, d, k)
    ensures H.ActOk(tables, ActOf(tables, d, k), k)
  {
    hide NarrowOnArrival;
    if tables[k + 1] != tables[k] {
      var _ := ArrivalIsOneSave(tables[k], d.asked, d.seen, d.id, d.holder, d.wanted, d.ask, d.first, d.turns);
    }
  }

  // ----- An admission as a decision

  /** A repository-wide plan that was read is the only admitted one in view. */
  lemma HolderIsAlone(seen: Leases, c: Call)
    requires ReadFrom(seen, c) && P.BlanketAlone(seen) && Adopts(c)
    ensures var e := FirstBlanket(c.reading.active).value;
            e.lease.Some? && c.reading.ids == {e.lease.value} && e.lease.value in seen && seen[e.lease.value].task == e.task
  {
    BlanketFound(c.reading.active);
    var e := FirstBlanket(c.reading.active).value;
    var k :| 0 <= k < |c.reading.active| && c.reading.active[k] == e && IsBlanket(e.plan);
    assert Sourced(seen, c, c.reading.active[k]);
    forall i | i in c.reading.ids ensures i == e.lease.value {
      assert Entered(seen, c, i);
    }
  }

  lemma ViewIsFinal(tables: seq<Leases>, d: Deed, k: nat)
    requires k + 1 < |tables| && d.Admits? && DeedOk(tables, d, k) && Attempt(DeskOf(tables[k], d), d.call).Some?
    requires P.BlanketAlone(tables[d.since]) && H.ReadOk(tables, ActOf(tables, d, k), |tables| - 1)
    ensures var c, seen := d.call, tables[d.since];
            H.ViewAt(tables, ActOf(tables, d, k), k) == map i | i in c.reading.ids :: ViewedPlan(seen, c, i)
  {
    var c, seen := d.call, tables[d.since];
    assert Decides(c);
    ReadingIsOk(tables, d, k);
    hide Attempt, Lawful, Admit;
    if Adopts(c) {
      HolderIsAlone(seen, c);
    }
  }

  lemma ReadingIsOk(tables: seq<Leases>, d: Deed, k: nat)
    requires k + 1 < |tables| && d.Admits? && DeedOk(tables, d, k) && P.BlanketAlone(tables[d.since])
    ensures H.ReadOk(tables, ActOf(tables, d, k), k) && H.ReadOk(tables, ActOf(tables, d, k), |tables| - 1)
    ensures ActOf(tables, d, k).Decision? ==> H.IdsOf(tables, ActOf(tables, d, k)) == d.call.reading.ids
  {
    hide Lawful, Admit;
    if Decides(d.call) && Adopts(d.call) {
      HolderIsAlone(tables[d.since], d.call);
    }
  }

  lemma AdmissionIsAnAct(tables: seq<Leases>, d: Deed, k: nat)
    requires k + 1 < |tables| && d.Admits? && DeedOk(tables, d, k) && P.BlanketAlone(tables[d.since])
    ensures H.ActOk(tables, ActOf(tables, d, k), k)
  {
    var c, desk := d.call, DeskOf(tables[k], d);
    ReadingIsOk(tables, d, k);
    OnlySaveWrites(desk, c, d.maxWait);
    if Attempt(desk, c).Some? {
      ViewIsFinal(tables, d, k);
      hide P.ArbitratedAgainst, Lawful, ReadFrom, Admit, VerdictOn, View;
      Runs.AttemptsAreDecisions(desk, c, tables[d.since]);
    }
  }

  lemma DeedIsAnAct(tables: seq<Leases>, d: Deed, k: nat)
    requires k + 1 < |tables| && DeedOk(tables, d, k)
    requires d.Admits? ==> P.BlanketAlone(tables[d.since])
    ensures H.ActOk(tables, ActOf(tables, d, k), k)
  {
    match d
    case Minted(_, _) =>
    case Over(_) =>
    case Claims(_, _, _, _, _, _) => ClaimIsAnAct(tables, d, k);
    case Freezes(_, _, _, _, _, _) => FreezeIsAnAct(tables, d, k);
    case Arrives(_, _, _, _, _, _, _, _) => ArrivalIsAnAct(tables, d, k);
    case Admits(_, _, _, _, _, _) => AdmissionIsAnAct(tables, d, k);
  }

  // ----- The whole history

  ghost function ActsOf(tables: seq<Leases>, deeds: seq<Deed>): (acts: seq<H.Act>)
    requires Story(tables, deeds)
    ensures |acts| == |deeds|
  {
    seq(|deeds|, k requires 0 <= k < |deeds| && Story(tables, deeds) => ActOf(tables, deeds[k], k))
  }

  ghost predicate AloneThroughout(tables: seq<Leases>, n: nat) {
    forall k :: 0 <= k < |tables| && k < n ==> P.BlanketAlone(tables[k])
  }

  lemma ActsAreOk(tables: seq<Leases>, deeds: seq<Deed>)
    requires Story(tables, deeds) && AloneThroughout(tables, |deeds|)
    ensures H.History(tables, ActsOf(tables, deeds))
  {
    hide DeedOk, DeedSound, ActOf, H.ActOk;
    forall k | 0 <= k < |deeds| ensures H.ActOk(tables, ActsOf(tables, deeds)[k], k) {
      DeedReadsThePast(tables, deeds[k], k);
      DeedIsAnAct(tables, deeds[k], k);
    }
  }

  lemma DeedReadsThePast(tables: seq<Leases>, d: Deed, k: nat)
    requires k + 1 < |tables| && DeedOk(tables, d, k)
    ensures d.Admits? ==> d.since <= k
  {
  }

  lemma RewriteIsSound(tables: seq<Leases>, deeds: seq<Deed>, k: nat)
    requires k < |deeds| && |tables| == |deeds| + 1 && DeedOk(tables, deeds[k], k) && DeedSound(tables, deeds, k)
    requires ActOf(tables, deeds[k], k).Rewritten?
    ensures var a, table := ActOf(tables, deeds[k], k), tables[k];
            a.id in table && Executes(table[a.id]) && Narrows(a.plan, PlanOn(table, a.id))
  {
    hide Narrows, FreezeClaim, NarrowOnArrival;
    var d, table := deeds[k], tables[k];
    if d.Freezes? {
      FreezeIsOneSave(d.turn.(table := table), d.asked, d.id, d.plan, d.estimate, d.ask);
    } else {
      var _ := ArrivalIsOneSave(table, d.asked, d.seen, d.id, d.holder, d.wanted, d.ask, d.first, d.turns);
    }
  }

  /** An admission that is saved leaves its attempt on the lease. */
  lemma AttemptIsStored(tables: seq<Leases>, d: Deed, k: nat)
    requires k + 1 < |tables| && d.Admits? && DeedOk(tables, d, k) && tables[k + 1] != tables[k]
    requires ActOf(tables, d, k).Decision?
    ensures var l := d.call.lease.value;
            l in tables[k + 1] && tables[k + 1][l].submission == Some(ActOf(tables, d, k).submission)
  {
    hide Admit, VerdictOn;
    OnlySaveWrites(DeskOf(tables[k], d), d.call, d.maxWait);
  }

  lemma UnwatchedByActs(tables: seq<Leases>, deeds: seq<Deed>, k: nat, id: LeaseId)
    requires Story(tables, deeds) && AloneThroughout(tables, |deeds|) && k < |deeds| && Unwatched(deeds, k, id)
    ensures H.Unwatched(tables, ActsOf(tables, deeds), k, id)
  {
    hide DeedOk, DeedSound;
    var acts := ActsOf(tables, deeds);
    forall e | k < e < |acts| && acts[e].Decision? && acts[e].since <= k && acts[e].id in tables[acts[e].since]
      ensures id !in H.IdsOf(tables, acts[e])
    {
      DeedReadsThePast(tables, deeds[e], e);
      ReadingIsOk(tables, deeds[e], e);
    }
  }

  lemma ActIsSound(tables: seq<Leases>, deeds: seq<Deed>, k: nat)
    requires Story(tables, deeds) && AloneThroughout(tables, |deeds|) && k < |deeds|
    requires H.ActOk(tables, ActsOf(tables, deeds)[k], k)
    ensures H.ActSound(tables, ActsOf(tables, deeds), k)
  {
    assert DeedOk(tables, deeds[k], k) && DeedSound(tables, deeds, k);
    var a, d := ActsOf(tables, deeds)[k], deeds[k];
    assert a == ActOf(tables, d, k);
    if a.Rewritten? {
      RewriteIsSound(tables, deeds, k);
    } else if a.Decision? && a.id in tables[k] && Executes(tables[k][a.id]) && tables[k + 1] != tables[k] {
      AttemptIsStored(tables, d, k);
      if Unwatched(deeds, k, a.id) {
        UnwatchedByActs(tables, deeds, k, a.id);
      }
    }
    hide Story, ActsOf, ActOf, DeedOk, H.ActOk, Narrows, H.Unwatched, Unwatched;
  }

  lemma {:induction false} ClaimsAreAlone(tables: seq<Leases>, deeds: seq<Deed>)
    requires Story(tables, deeds)
    ensures AloneThroughout(tables, |tables|)
    decreases |deeds|
  {
    hide P.BlanketAlone, H.History, H.ActSound, ActsOf;
    if deeds != [] {
      var n := |deeds|;
      StoryBefore(tables, deeds);
      ClaimsAreAlone(tables[..n], deeds[..n - 1]);
      assert forall k :: 0 <= k < n ==> tables[..n][k] == tables[k];
      TheWholeIsReached(tables, deeds, n);
    } else {
      NobodyIsBlanket();
    }
  }

  lemma NobodyIsBlanket()
    ensures P.BlanketAlone(map[])
  {
  }

  lemma StoryBefore(tables: seq<Leases>, deeds: seq<Deed>)
    requires Story(tables, deeds) && deeds != []
    ensures Story(tables[..|deeds|], deeds[..|deeds| - 1])
  {
    var n := |deeds| - 1;
    var before, so := tables[..n + 1], deeds[..n];
    forall k | 0 <= k < n ensures DeedOk(before, so[k], k) && DeedSound(before, so, k) {
      DeedOkBefore(tables, deeds, k);
    }
  }

  lemma DeedOkBefore(tables: seq<Leases>, deeds: seq<Deed>, k: nat)
    requires |tables| == |deeds| + 1 && k + 1 < |deeds| && DeedOk(tables, deeds[k], k) && DeedSound(tables, deeds, k)
    ensures DeedOk(tables[..|deeds|], deeds[..|deeds| - 1][k], k)
    ensures DeedSound(tables[..|deeds|], deeds[..|deeds| - 1], k)
  {
    hide Admit, NarrowOnArrival, FreezeClaim, ClaimWhole, ReadFrom, Lawful, Narrows, Adopts;
    var before, so := tables[..|deeds|], deeds[..|deeds| - 1];
    assert so[k] == deeds[k] && before[k] == tables[k] && before[k + 1] == tables[k + 1];
    forall i | 0 <= i <= k ensures before[i] == tables[i] {
    }
  }

  lemma TheWholeIsReached(tables: seq<Leases>, deeds: seq<Deed>, n: nat)
    requires Story(tables, deeds) && AloneThroughout(tables, |deeds|) && n < |tables|
    ensures P.Exclusive(tables[n]) && P.BlanketAlone(tables[n])
    ensures exists pending :: H.SoundlyReached(P.State(tables[n], pending))
  {
    ActsAreOk(tables, deeds);
    hide Story, AloneThroughout, H.ActOk, P.Exclusive, P.BlanketAlone, H.SoundlyReached;
    forall k | 0 <= k < |deeds| ensures H.ActSound(tables, ActsOf(tables, deeds), k) {
      ActIsSound(tables, deeds, k);
    }
    H.HistoryIsReached(tables, ActsOf(tables, deeds), n);
    var s := H.At(tables, ActsOf(tables, deeds), n);
    assert s == P.State(tables[n], s.pending);
  }

  /** Whatever authorities claim, freeze, narrow and admit on one table, in whatever order and on however
      old readings: where every freeze, narrowing and revision that replaces an admitted plan narrows it,
      or a revision replaces what nobody is deciding on, each table is one a sound run of the protocol
      reaches, the admitted plans of different tasks are exclusive, and a claim is its repository's only
      admitted plan. */
  lemma CallsKeepPlansExclusive(tables: seq<Leases>, deeds: seq<Deed>, n: nat)
    requires Story(tables, deeds) && n < |tables|
    ensures P.Exclusive(tables[n]) && P.BlanketAlone(tables[n])
    ensures exists pending :: H.SoundlyReached(P.State(tables[n], pending))
  {
    ClaimsAreAlone(tables, deeds);
    TheWholeIsReached(tables, deeds, n);
  }
}
