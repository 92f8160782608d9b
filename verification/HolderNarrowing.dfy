/** Narrowing a repository-wide claim for somebody who has arrived.

The holder's own lease is read first (`seen`) and its neighbours after that
(`near`); then the holder may be asked and its worktree is read, and only then
is anything written. The table may have moved between any two of these, so
every write goes through `Save` on the current table, and a stale one takes the
whole turn again.
*/
module HolderNarrowing {
  import opened Optional
  import opened Plans
  import opened LeaseStore
  import opened PlanDecision

  /** What asking the holder would bring. `Silent` is a failed ask or an empty answer. */
  datatype Ask = Unreachable | StillThinking | Silent | Said(files: set<File>, symbols: set<Symbol>)

  /** What arbitrating a converted plan is given: the other admitted plans, how the whole scores against
      them, and the part of it that could be granted. */
  datatype Hearing = Hearing(active: seq<Entry>, whole: Admission, split: Option<Submission>)

  datatype FreezeAnswer = Kept | Became(plan: Plan) | AskPending | Unreadable | Reread

  /** What an arrival is given off a holder's estimate: wanted, estimated, and not being written;
      nothing at all from a holder that has written nothing. */
  function ReleasedTo(estimate: set<File>, wanted: set<File>, dirty: set<File>): (r: set<File>)
    ensures r !! dirty && r <= wanted && r <= estimate
    ensures if dirty == {} then r == {} else estimate * wanted <= r + dirty
  {
    if dirty == {} then {} else estimate * wanted - dirty
  }

  function Without(p: Plan, files: set<File>): (r: Plan)
    ensures Files(r) == Files(p) - files && r.claim == p.claim && r.task == p.task
  {
    p.(scope := p.scope - files)
  }

  /** Files the stored claim says were handed back. */
  function GivenBack(lease: Lease): set<File> {
    if lease.submission.Some? && IsBlanket(lease.submission.value.plan)
    then lease.submission.value.plan.claim.released else {}
  }

  predicate Converted(lease: Lease, task: TaskId) {
    && lease.submission.Some?
    && lease.submission.value.plan.task == task
    && !IsBlanket(lease.submission.value.plan)
  }

  /** Another task is in the repository, planned or not. */
  predicate Joined(near: Leases, repository: Repository, id: LeaseId) {
    exists l :: l in near && l != id && near[l].active && near[l].repository == repository
  }

  /** The files the other admitted plans name or hold. */
  function OccupiedElsewhere(near: Leases, ids: set<LeaseId>, f: File): bool
    requires forall i :: i in ids ==> i in near && Executes(near[i])
  {
    exists i :: i in ids && (ClaimOccupies(PlanOn(near, i), f) || f in Files(PlanOn(near, i)))
  }

  function Unoccupied(near: Leases, ids: set<LeaseId>, files: set<File>): set<File>
    requires forall i :: i in ids ==> i in near && Executes(near[i])
  {
    set f | f in files && !OccupiedElsewhere(near, ids, f)
  }

  function Conversion(near: Leases, ids: set<LeaseId>, p: Plan, said: set<File>, symbols: set<Symbol>,
                      observed: set<File>): Option<Plan>
    requires forall i :: i in ids ==> i in near && Executes(near[i])
  {
    if exists f :: f in observed && OccupiedElsewhere(near, ids, f) then
      None
    else
      DeclaredPlan(p, Unoccupied(near, ids, said), symbols, observed)
  }

  /** A conversion keeps every observed file, holds whole the ones the answer left out, and is
      abandoned when an observed file is taken; it shares no file with another admitted plan
      exactly when the holder's own estimate does not. */
  lemma ConversionIsSafe(near: Leases, ids: set<LeaseId>, p: Plan, said: set<File>, symbols: set<Symbol>,
                         observed: set<File>)
    requires forall i :: i in ids ==> i in near && Executes(near[i])
    ensures (exists f :: f in observed && OccupiedElsewhere(near, ids, f))
            ==> Conversion(near, ids, p, said, symbols, observed).None?
    ensures var c := Conversion(near, ids, p, said, symbols, observed);
            c.Some? ==>
              && !IsBlanket(c.value) && c.value.task == p.task
              && (forall f :: f in observed ==> Touches(c.value, f))
              && (forall f :: f in observed && f !in said ==> HoldsWhole(c.value, f))
              && (forall f :: f in Files(c.value) ==> f in said + observed + Files(p))
              && ((forall f :: f in Files(c.value) ==> !OccupiedElsewhere(near, ids, f))
                  <==> (forall f :: f in Files(p) ==> !OccupiedElsewhere(near, ids, f)))
              && (forall f :: f in Files(c.value) && !(f in observed && f !in said) ==> c.value.scope[f] == symbols)
    ensures Conversion(near, ids, p, said, symbols, observed).None?
            <==> || !IsBlanket(p) || symbols == {} || (forall f :: f in said ==> OccupiedElsewhere(near, ids, f))
                 || (exists f :: f in observed && OccupiedElsewhere(near, ids, f))
  {
    var c := Conversion(near, ids, p, said, symbols, observed);
    assert forall f :: f in Unoccupied(near, ids, said) <==> f in said && !OccupiedElsewhere(near, ids, f);
    if c.Some? {
      assert Files(c.value)
          == Unoccupied(near, ids, said) + observed + Files(p);
    }
  }

  /** The conversion is decided like any other plan, but must not be split. */
  predicate Approves(h: Hearing, p: Plan) {
    IsApproved(Rule(Opinion(p, h.whole, h.split), h.active, false).admission)
  }

  datatype Freezing = Freezing(answer: FreezeAnswer, table: Leases, asked: set<TaskId>)

  /** What the holder is left with once nothing more can be learnt about it. */
  function PlainFreeze(table: Leases, asked: set<TaskId>, id: LeaseId, ids: set<LeaseId>,
                       mine: Plan, narrowTo: set<File>): (z: Freezing)
    ensures !z.answer.Became? ==> z.table == table
  {
    if narrowTo == {} then
      Freezing(Kept, table, asked)
    else
      var frozen := Freeze(mine, narrowTo);
      var (outcome, table') := Save(table, id, Submission(frozen, GRANTED), ids, true);
      if outcome.Stale? then Freezing(Reread, table, asked)
      else if outcome.LeaseLost? then Freezing(Kept, table, asked)
      else Freezing(Became(frozen), table', asked)
  }

  /** What one turn of a freeze meets: the table as the holder's lease is read (`seen`), as its
      neighbours are (`near`), and as it is at the write (`table`); the hearing of a converted plan; and
      the reading of the holder's worktree. */
  datatype Turn = Turn(table: Leases, seen: Leases, near: Leases, hearing: Hearing, observed: Option<set<File>>)

  function OthersRead(turn: Turn, id: LeaseId): (ids: set<LeaseId>)
    requires id in turn.seen
    ensures forall i :: i in ids ==> i in turn.near && Executes(turn.near[i])
  {
    ApprovedOthers(turn.near, turn.seen[id].repository, id)
  }

  /** Narrowing the claim held on `id`, as the holder's own poll and an arrival both do: one turn. A
      freeze that does not say what the claim became has not touched the table. */
  function FreezeClaim(turn: Turn, asked: set<TaskId>, id: LeaseId, plan: Plan, estimate: set<File>, ask: Ask)
    : (z: Freezing)
    ensures z.answer.Reread? ==> id in turn.seen
    ensures !z.answer.Became? ==> z.table == turn.table
  {
    if !IsBlanket(plan) || id !in turn.seen || !turn.seen[id].active then
      Freezing(Kept, turn.table, asked)
    else if Converted(turn.seen[id], plan.task) then
      Freezing(Became(turn.seen[id].submission.value.plan), turn.table, asked)
    else if !Joined(turn.near, turn.seen[id].repository, id) then
      Freezing(Kept, turn.table, asked)
    else
      var mine := Without(plan, GivenBack(turn.seen[id]));
      var ids := OthersRead(turn, id);
      var asking := !ask.Unreachable? && plan.task !in asked;
      if asking && ask.StillThinking? then
        Freezing(AskPending, turn.table, asked)
      else
        var asked' := if asking then asked + {plan.task} else asked;
        if turn.observed.None? then
          Freezing(Unreadable, turn.table, asked')
        else
          var converted := if asking && ask.Said?
                           then Conversion(turn.near, ids, mine, ask.files, ask.symbols, turn.observed.value) else None;
          if converted.Some? && Approves(turn.hearing, converted.value)
             && Save(turn.table, id, Submission(converted.value, GRANTED), ids, true).0.Saved? then
            Freezing(Became(converted.value),
                     Save(turn.table, id, Submission(converted.value, GRANTED), ids, true).1, asked')
          else
            PlainFreeze(turn.table, asked', id, ids, mine,
                        if turn.observed.value != {} then turn.observed.value else estimate - GivenBack(turn.seen[id]))
  }

  /** Which turn answers, and what the stale ones before it leave of the request: they have asked, and
      have taken off it what was handed back. */
  datatype Retried = Retried(turn: nat, asked: set<TaskId>, plan: Plan, estimate: set<File>)

  function LastTurn(turns: seq<Turn>, asked: set<TaskId>, id: LeaseId, plan: Plan, estimate: set<File>, ask: Ask)
    : (r: Retried)
    requires turns != []
    ensures r.turn < |turns|
  {
    var z := FreezeClaim(turns[0], asked, id, plan, estimate, ask);
    if z.answer.Reread? && |turns| > 1 then
      var given := GivenBack(turns[0].seen[id]);
      var r := LastTurn(turns[1..], z.asked, id, Without(plan, given), estimate - given, ask);
      r.(turn := r.turn + 1)
    else
      Retried(0, asked, plan, estimate)
  }

  /** The freeze, taken again as long as its write is stale; `Reread` is left where the turns end first. */
  function FreezeTurns(turns: seq<Turn>, asked: set<TaskId>, id: LeaseId, plan: Plan, estimate: set<File>, ask: Ask): Freezing
    requires turns != []
  {
    var r := LastTurn(turns, asked, id, plan, estimate, ask);
    FreezeClaim(turns[r.turn], r.asked, id, r.plan, r.estimate, ask)
  }

  datatype ArrivalAnswer = Stands | Narrowed(plan: Plan) | Retrying

  /** The answer, the table last met and the one it is left as, and who has been asked. */
  datatype Arrival = Arrival(answer: ArrivalAnswer, found: Leases, table: Leases, asked: set<TaskId>)

  /** Narrowing on arrival: released ground comes off the holder's plan, then the freeze above where
      the holder can be asked, and otherwise a freeze on what was read first.

      `holder` is the plan as the arrival read it, before any of these tables; `first` is the arrival's
      own reading of the holder's worktree, and every turn of the inner freeze makes another. */
  function NarrowOnArrival(table: Leases, asked: set<TaskId>, seen: Leases, id: LeaseId, holder: Plan, wanted: set<File>,
                           ask: Ask, first: Option<set<File>>, turns: seq<Turn>): Arrival
    requires !ask.Unreachable? ==> turns != []
  {
    if id !in seen || !seen[id].active || seen[id].submission.None? || first.None? then
      Arrival(Stands, table, table, asked)
    else
      var kept := StillKept(holder, wanted, first.value);
      if ask.Unreachable? then
        FallBack(table, asked, seen, id, kept, first.value)
      else
        var r := LastTurn(turns, asked, id, kept, Files(kept), ask);
        var inner := FreezeClaim(turns[r.turn], r.asked, id, r.plan, r.estimate, ask);
        match inner.answer
        case Became(p) => Arrival(Narrowed(p), turns[r.turn].table, inner.table, inner.asked)
        case AskPending => Arrival(Stands, inner.table, inner.table, inner.asked)
        case Reread => Arrival(Retrying, inner.table, inner.table, inner.asked)
        case _ => FallBack(table, inner.asked, seen, id, kept, first.value)
  }

  /** The holder's plan without what is released to the arrival. */
  function StillKept(holder: Plan, wanted: set<File>, first: set<File>): Plan {
    Without(holder, ReleasedTo(Files(holder), wanted, first))
  }

  /** The freeze that needs nothing of the holder. */
  function FallBack(table: Leases, asked: set<TaskId>, seen: Leases, id: LeaseId, kept: Plan, observed: set<File>)
    : (a: Arrival)
    requires id in seen
    ensures a.asked == asked && a.found == table
  {
    var frozen := Freeze(kept, observed);
    var (outcome, table') := Save(table, id, Submission(frozen, GRANTED),
                                  ApprovedOthers(seen, seen[id].repository, id), true);
    if outcome.Saved? then Arrival(Narrowed(frozen), table, table', asked) else Arrival(Stands, table, table, asked)
  }

  // ----- The freeze

  /** Every write of a freeze: one lease, an admitted plan that is not repository-wide, covering
      every observed file and nothing but the caller's files not handed back, the holder's answer
      and the observation (or, where nothing was observed, the estimate). */
  lemma FreezeWrites(turn: Turn, asked: set<TaskId>, id: LeaseId, plan: Plan, estimate: set<File>, ask: Ask)
    requires FreezeClaim(turn, asked, id, plan, estimate, ask).table != turn.table
    ensures var z := FreezeClaim(turn, asked, id, plan, estimate, ask);
            && z.answer.Became? && turn.observed.Some? && id in turn.table && id in turn.seen && turn.table[id].active
            && z.table == turn.table[id := turn.table[id].(submission := Some(Submission(z.answer.plan, GRANTED)))]
            && !IsBlanket(z.answer.plan) && z.answer.plan.task == plan.task
            && (forall f :: f in turn.observed.value ==> Touches(z.answer.plan, f))
            && (forall f :: f in turn.observed.value && !(ask.Said? && f in ask.files) ==> HoldsWhole(z.answer.plan, f))
            && (forall f :: Touches(z.answer.plan, f) ==>
                  || (f in Files(plan) && f !in GivenBack(turn.seen[id]))
                  || f in turn.observed.value
                  || (ask.Said? && f in ask.files)
                  || (turn.observed.value == {} && f in estimate && f !in GivenBack(turn.seen[id])))
  {
    hide Approves;
    var mine := Without(plan, GivenBack(turn.seen[id]));
    if ask.Said? {
      ConversionIsSafe(turn.near, OthersRead(turn, id), mine, ask.files, ask.symbols, turn.observed.value);
    }
  }

  /** A freeze that writes is one guarded save of the plan it answers with, under the admitted set its
      neighbours were read as. */
  lemma FreezeIsOneSave(turn: Turn, asked: set<TaskId>, id: LeaseId, plan: Plan, estimate: set<File>, ask: Ask)
    requires FreezeClaim(turn, asked, id, plan, estimate, ask).table != turn.table
    ensures var z := FreezeClaim(turn, asked, id, plan, estimate, ask);
            && id in turn.seen && z.answer.Became?
            && Save(turn.table, id, Submission(z.answer.plan, GRANTED), OthersRead(turn, id), true) == (Saved, z.table)
  {
    hide Conversion, GivenBack, Without, Converted, Joined, Approves, OthersRead;
  }

  // ----- What a freeze answers

  /** There is a claim to freeze, and somebody to freeze it for. */
  predicate IsDue(turn: Turn, id: LeaseId, plan: Plan) {
    && IsBlanket(plan) && id in turn.seen && turn.seen[id].active && !Converted(turn.seen[id], plan.task)
    && exists l :: l in turn.near && l != id && turn.near[l].active && turn.near[l].repository == turn.seen[id].repository
  }

  /** The holder is asked now: it can be, and has not been before. */
  predicate Asking(asked: set<TaskId>, plan: Plan, ask: Ask) {
    !ask.Unreachable? && plan.task !in asked
  }

  /** The holder's answer makes an ordinary plan of the claim, and that is approved. */
  predicate Converts(turn: Turn, asked: set<TaskId>, id: LeaseId, plan: Plan, ask: Ask, p: Plan)
    requires id in turn.seen && turn.observed.Some?
  {
    && ask.Said? && Asking(asked, plan, ask) && Approves(turn.hearing, p)
    && Conversion(turn.near, OthersRead(turn, id), Without(plan, GivenBack(turn.seen[id])), ask.files, ask.symbols,
                  turn.observed.value) == Some(p)
  }

  /** What there is to keep beside the plan's own files: what was seen written, or where nothing was, what
      of the estimate was not handed back. */
  function Ground(turn: Turn, id: LeaseId, estimate: set<File>): (r: set<File>)
    requires id in turn.seen && turn.observed.Some?
    ensures turn.observed.value != {} ==> r == turn.observed.value
    ensures turn.observed.value == {} ==> forall f :: f in r <==> f in estimate && f !in GivenBack(turn.seen[id])
  {
    if turn.observed.value != {} then turn.observed.value else estimate - GivenBack(turn.seen[id])
  }

  /** The lease can still be written. */
  predicate IsThere(turn: Turn, id: LeaseId) {
    id in turn.table && turn.table[id].active
  }

  /** The admitted plans are still those that were read. */
  predicate IsUnmoved(turn: Turn, id: LeaseId)
    requires id in turn.seen && id in turn.table
  {
    ApprovedOthers(turn.table, turn.table[id].repository, id) == OthersRead(turn, id)
  }

  /** When one turn of a freeze gives each of its answers, and what it leaves. A due claim whose worktree
      can be read and whose write goes through is rewritten exactly when there is ground to keep, or an
      approved answer: a holder that has written nothing is held to its estimate. */
  lemma FreezeAnswersIff(turn: Turn, asked: set<TaskId>, id: LeaseId, plan: Plan, estimate: set<File>, ask: Ask)
    ensures var z := FreezeClaim(turn, asked, id, plan, estimate, ask);
            var due := IsDue(turn, id, plan);
            var waits := due && Asking(asked, plan, ask) && ask.StillThinking?;
            var read := due && !waits && turn.observed.Some?;
            && (z.answer.AskPending? <==> waits)
            && (z.answer.Unreadable? <==> due && !waits && turn.observed.None?)
            && (z.answer.Reread? <==> read && IsThere(turn, id) && !IsUnmoved(turn, id) && Ground(turn, id, estimate) != {})
            && (z.answer.Became? <==>
                  || (IsBlanket(plan) && id in turn.seen && turn.seen[id].active && Converted(turn.seen[id], plan.task))
                  || (read && IsThere(turn, id) && IsUnmoved(turn, id)
                      && (Ground(turn, id, estimate) != {} || exists p :: Converts(turn, asked, id, plan, ask, p))))
            && (read && z.answer.Became? ==>
                  && z.table == turn.table[id := turn.table[id].(submission := Some(Submission(z.answer.plan, GRANTED)))]
                  && if exists p :: Converts(turn, asked, id, plan, ask, p) then Converts(turn, asked, id, plan, ask, z.answer.plan)
                     else z.answer.plan == Freeze(Without(plan, GivenBack(turn.seen[id])), Ground(turn, id, estimate)))
            && (!read ==> z.table == turn.table)
            && z.asked == if due && !waits && Asking(asked, plan, ask) then asked + {plan.task} else asked
  {
    hide Approves, Conversion, GivenBack, Without, Freeze, ApprovedOthers;
    if IsDue(turn, id, plan) && turn.observed.Some? && ask.Said? && Asking(asked, plan, ask) {
      var c := Conversion(turn.near, OthersRead(turn, id), Without(plan, GivenBack(turn.seen[id])), ask.files, ask.symbols,
                          turn.observed.value);
      if c.Some? && Approves(turn.hearing, c.value) {
        assert Converts(turn, asked, id, plan, ask, c.value);
      }
    }
  }

  /** What a freeze of a claim keeps of it, nothing being answered: what was seen written and the plan's
      own files, or where nothing was written the estimate and those, none of it handed back. */
  lemma PlainFootprint(turn: Turn, asked: set<TaskId>, id: LeaseId, plan: Plan, estimate: set<File>, ask: Ask, f: File)
    requires IsDue(turn, id, plan) && turn.observed.Some? && (!Asking(asked, plan, ask) || ask.Silent?)
    requires FreezeClaim(turn, asked, id, plan, estimate, ask).answer.Became?
    ensures var p := FreezeClaim(turn, asked, id, plan, estimate, ask).answer.plan;
            var own := f in Files(plan) && f !in GivenBack(turn.seen[id]);
            && (Touches(p, f) <==> own || f in turn.observed.value
                                   || (turn.observed.value == {} && f in estimate && f !in GivenBack(turn.seen[id])))
            && (HoldsWhole(p, f) <==> Touches(p, f))
  {
    hide Approves, Conversion, GivenBack;
    FreezeAnswersIff(turn, asked, id, plan, estimate, ask);
    hide FreezeClaim;
    FreezeOccupies(Without(plan, GivenBack(turn.seen[id])), Ground(turn, id, estimate), f);
  }

  /** Ground that the stored claim says was handed back is not taken again, whatever stale plan or estimate
      the caller passes: only the holder's writing in a file, or naming it, brings that back. */
  lemma HandedBackStaysFree(turn: Turn, asked: set<TaskId>, id: LeaseId, plan: Plan, estimate: set<File>, ask: Ask, f: File)
    requires FreezeClaim(turn, asked, id, plan, estimate, ask).table != turn.table
    requires id in turn.seen && turn.seen[id].submission.Some?
    requires var stored := turn.seen[id].submission.value.plan; stored.claim.Blanket? && f in stored.claim.released
    ensures Touches(FreezeClaim(turn, asked, id, plan, estimate, ask).answer.plan, f)
            ==> turn.observed.Some? && (f in turn.observed.value || (ask.Said? && f in ask.files))
  {
    FreezeWrites(turn, asked, id, plan, estimate, ask);
    hide FreezeClaim;
  }

  /** A file is occupied by what another plan names, or by a claim on the repository that has not let it go. */
  lemma OccupiedElsewhereIff(near: Leases, ids: set<LeaseId>, f: File)
    requires forall i :: i in ids ==> i in near && Executes(near[i])
    ensures OccupiedElsewhere(near, ids, f)
            <==> exists i :: i in ids && HasNamedOrClaimed(PlanOn(near, i), f)
  {
  }

  predicate HasNamedOrClaimed(p: Plan, f: File) {
    || f in Files(p) || (p.claim.Blanket? && f !in p.claim.released) || (p.claim.Declared? && f in p.claim.held)
  }

  /** A holder that has written nothing does not keep the repository. */
  lemma NothingWrittenIsHeldToTheEstimate(hearing: Hearing)
    ensures var table: Leases := map[0 := Lease("h", "r", None, true, Some(Submission(BlanketPlan("h", {"f"}), GRANTED))),
                                     1 := Lease("b", "r", None, true, None)];
            var turn := Turn(table, table, table, hearing, Some({}));
            var z := FreezeClaim(turn, {}, 0, BlanketPlan("h", {}), {"f"}, Unreachable);
            z.answer == Became(FrozenTo({"f"})) && z.table != table
  {
    var table: Leases := map[0 := Lease("h", "r", None, true, Some(Submission(BlanketPlan("h", {"f"}), GRANTED))),
                             1 := Lease("b", "r", None, true, None)];
    var turn := Turn(table, table, table, hearing, Some({}));
    assert table[1].active && IsDue(turn, 0, BlanketPlan("h", {}));
    assert OthersRead(turn, 0) == {};
    assert Ground(turn, 0, {"f"}) == {"f"};
    FreezeAnswersIff(turn, {}, 0, BlanketPlan("h", {}), {"f"}, Unreachable);
    assert Files(Without(BlanketPlan("h", {}), GivenBack(table[0]))) + {"f"} == {"f"};
  }

  /** One freeze by whoever: what the caller passes and observes may be as stale as it likes. */
  datatype FreezeCall = FreezeCall(turn: Turn, asked: set<TaskId>, plan: Plan, estimate: set<File>, ask: Ask)

  function FrozenOnce(table: Leases, id: LeaseId, c: FreezeCall): Leases {
    FreezeClaim(c.turn.(table := table, seen := table), c.asked, id, c.plan, c.estimate, c.ask).table
  }

  /** Freezes of one holder's claim, each reading the lease as the one before left it. */
  function FrozenBy(table: Leases, id: LeaseId, calls: seq<FreezeCall>): Leases {
    if calls == [] then table else FrozenOnce(FrozenBy(table, id, calls[..|calls| - 1]), id, calls[|calls| - 1])
  }

  ghost predicate OfOneHolder(calls: seq<FreezeCall>, task: TaskId) {
    forall k :: 0 <= k < |calls| ==> calls[k].plan.task == task
  }

  lemma FreezeConverts(table: Leases, id: LeaseId, c: FreezeCall)
    ensures id in table && Converted(table[id], c.plan.task) ==> FrozenOnce(table, id, c) == table
    ensures FrozenOnce(table, id, c) != table ==>
      id in FrozenOnce(table, id, c) && Converted(FrozenOnce(table, id, c)[id], c.plan.task)
  {
    hide Approves, Conversion;
    if FrozenOnce(table, id, c) != table {
      FreezeWrites(c.turn.(table := table, seen := table), c.asked, id, c.plan, c.estimate, c.ask);
    }
  }

  /** However often, by whomever and with whatever stale plans a claim is frozen, it is rewritten at
      most once: from the first freeze that writes on, the whole table stands. */
  lemma {:induction false} NoReWidening(table: Leases, id: LeaseId, task: TaskId, calls: seq<FreezeCall>, k: nat)
    requires OfOneHolder(calls, task) && k <= |calls|
    requires FrozenBy(table, id, calls[..k]) != table
    ensures FrozenBy(table, id, calls) == FrozenBy(table, id, calls[..k])
    ensures id in FrozenBy(table, id, calls) && Converted(FrozenBy(table, id, calls)[id], task)
    decreases |calls|
  {
    hide FrozenOnce, Converted;
    if k == |calls| {
      assert calls[..k] == calls;
      if calls != [] {
        var init, last := calls[..k - 1], calls[k - 1];
        if FrozenBy(table, id, init) != table {
          assert forall i :: 0 <= i < |init| ==> init[i] == calls[i];
          assert init[..k - 1] == init;
          NoReWidening(table, id, task, init, k - 1);
        }
        FreezeConverts(FrozenBy(table, id, init), id, last);
      }
    } else {
      var init, last := calls[..|calls| - 1], calls[|calls| - 1];
      assert forall i :: 0 <= i < |init| ==> init[i] == calls[i];
      assert init[..k] == calls[..k];
      NoReWidening(table, id, task, init, k);
      FreezeConverts(FrozenBy(table, id, init), id, last);
    }
  }

  /** Freezing twice is freezing once. */
  lemma FreezingTwice(turn: Turn, asked: set<TaskId>, id: LeaseId, plan: Plan, estimate: set<File>, ask: Ask,
                      turn': Turn, asked': set<TaskId>, stale: Plan, estimate': set<File>, ask': Ask)
    requires IsBlanket(stale) && stale.task == plan.task
    requires FreezeClaim(turn, asked, id, plan, estimate, ask).table != turn.table
    requires turn'.table == turn'.seen == FreezeClaim(turn, asked, id, plan, estimate, ask).table
    ensures var z := FreezeClaim(turn, asked, id, plan, estimate, ask);
            FreezeClaim(turn', asked', id, stale, estimate', ask') == Freezing(z.answer, z.table, asked')
  {
    FreezeWrites(turn, asked, id, plan, estimate, ask);
  }

  /** A conversion that is refused leaves the table to the plain freeze: all or nothing. */
  lemma ConversionIsAllOrNothing(turn: Turn, asked: set<TaskId>, id: LeaseId, plan: Plan, estimate: set<File>, ask: Ask)
    requires IsBlanket(plan) && id in turn.seen && turn.seen[id].active && !Converted(turn.seen[id], plan.task)
    requires Joined(turn.near, turn.seen[id].repository, id) && ask.Said? && plan.task !in asked && turn.observed.Some?
    ensures var mine := Without(plan, GivenBack(turn.seen[id]));
            var c := Conversion(turn.near, OthersRead(turn, id), mine, ask.files, ask.symbols, turn.observed.value);
            var z := FreezeClaim(turn, asked, id, plan, estimate, ask);
            if c.Some? && Approves(turn.hearing, c.value)
               && Save(turn.table, id, Submission(c.value, GRANTED), OthersRead(turn, id), true).0.Saved?
            then z.answer == Became(c.value)
            else z == FreezeClaim(turn, asked + {plan.task}, id, plan, estimate, Unreachable)
  {
    hide Approves, Conversion;
  }

  // ----- What a conversion is arbitrated against

  /** The hearing is given every admitted plan that was read, and no other. */
  ghost predicate HeardFrom(near: Leases, ids: set<LeaseId>, active: seq<Entry>)
    requires forall i :: i in ids ==> i in near && Executes(near[i])
  {
    && (forall i :: i in ids ==> exists k :: 0 <= k < |active| && IsEntryOf(active[k], near[i]))
    && (forall k :: 0 <= k < |active| ==> exists i :: i in ids && IsEntryOf(active[k], near[i]))
  }

  predicate IsEntryOf(e: Entry, lease: Lease)
    requires Executes(lease)
  {
    e.task == lease.task && e.plan == lease.submission.value.plan
  }

  /** A claim, frozen or declared, holds whole whatever it occupies. */
  ghost predicate ClaimsAreWhole(active: seq<Entry>) {
    forall k, f :: 0 <= k < |active| && ClaimOccupies(active[k].plan, f) ==> HoldsWhole(active[k].plan, f)
  }

  /** A conversion that is written is compatible with every admitted plan of another task it read exactly
      when none of those plans' claims holds a file of it. Arbitration refuses every other conflict; one
      with a claim it answers with a part, and then the whole is written all the same. */
  lemma ConversionIsArbitratedIff(turn: Turn, asked: set<TaskId>, id: LeaseId, plan: Plan, estimate: set<File>, ask: Ask)
    requires var z := FreezeClaim(turn, asked, id, plan, estimate, ask);
             z.table != turn.table && z.answer.Became? && z.answer.plan.claim.Declared? && id in turn.seen
             && HeardFrom(turn.near, OthersRead(turn, id), turn.hearing.active)
             && Competent(Opinion(z.answer.plan, turn.hearing.whole, turn.hearing.split), turn.hearing.active)
             && ClaimsAreWhole(turn.hearing.active)
    ensures var p := FreezeClaim(turn, asked, id, plan, estimate, ask).answer.plan;
            (forall i :: i in OthersRead(turn, id) && turn.near[i].task != p.task ==> Compatible(p, PlanOn(turn.near, i)))
            <==> !ClaimBlocks(p, turn.hearing.active)
  {
    var p := FreezeClaim(turn, asked, id, plan, estimate, ask).answer.plan;
    ConvertedIsApproved(turn, asked, id, plan, estimate, ask);
    hide FreezeClaim, OthersRead, Conversion, Compatible, Rule, Competent;
    ApprovedIffUnclaimed(p, turn.hearing);
    HeardIsRead(turn.near, OthersRead(turn, id), turn.hearing.active, p);
  }

  /** Only a conversion is written as declared, and only an approved one. */
  lemma ConvertedIsApproved(turn: Turn, asked: set<TaskId>, id: LeaseId, plan: Plan, estimate: set<File>, ask: Ask)
    requires var z := FreezeClaim(turn, asked, id, plan, estimate, ask);
             z.table != turn.table && z.answer.Became? && z.answer.plan.claim.Declared?
    ensures var p := FreezeClaim(turn, asked, id, plan, estimate, ask).answer.plan;
            Approves(turn.hearing, p) && !IsBlanket(p)
  {
    hide Approves, OccupiedElsewhere;
  }

  lemma ApprovedIffUnclaimed(p: Plan, h: Hearing)
    requires Approves(h, p) && Competent(Opinion(p, h.whole, h.split), h.active) && ClaimsAreWhole(h.active) && !IsBlanket(p)
    ensures CompatibleWithAll(p, h.active) <==> !ClaimBlocks(p, h.active)
  {
    hide Compatible, HoldsWhole;
    if k :| 0 <= k < |h.active| && Blocks(p, h.active[k]) {
      assert !IsBlanket(h.active[k].plan);
      var f :| f in Files(p) && ClaimOccupies(h.active[k].plan, f);
      assert HoldsWhole(h.active[k].plan, f);
      if Compatible(p, h.active[k].plan) {
        WholeFilesAreExclusive(p, h.active[k].plan, f);
      }
    }
  }

  lemma HeardIsRead(near: Leases, ids: set<LeaseId>, active: seq<Entry>, p: Plan)
    requires forall i :: i in ids ==> i in near && Executes(near[i])
    requires HeardFrom(near, ids, active)
    ensures CompatibleWithAll(p, active)
            <==> forall i :: i in ids && near[i].task != p.task ==> Compatible(p, PlanOn(near, i))
  {
    hide Compatible;
  }

  /** What holder "h" is left with once frozen to some files. */
  function FrozenTo(files: set<File>): Plan {
    Plan("h", map x | x in files :: {}, Frozen)
  }

  /** What "h" declares of a claim estimated at "f" when it answers "g". */
  const CONVERTED := Plan("h", map["f" := {"s"}, "g" := {"s"}], Declared({}))

  /** The holder's lease is read while it still says the claim, and its neighbour once that is admitted. */
  function Between(neighbour: Plan, whole: Admission, split: Option<Submission>): Turn {
    var claimed := Lease("h", "r", None, true, Some(Submission(BlanketPlan("h", {"f"}), GRANTED)));
    var table := map[0 := claimed.(submission := Some(Submission(FrozenTo({"g"}), GRANTED))),
                     1 := Lease("b", "r", None, true, Some(Submission(neighbour, GRANTED)))];
    Turn(table, map[0 := claimed], table, Hearing([Entry("b", Some(1), "", neighbour, None)], whole, split), Some({}))
  }

  lemma DeclaresBoth()
    ensures DeclaredPlan(BlanketPlan("h", {"f"}), {"g"}, {"s"}, {}) == Some(CONVERTED)
  {
    var d := DeclaredPlan(BlanketPlan("h", {"f"}), {"g"}, {"s"}, {}).value;
    assert {} - {"g"} == {};
    assert Files(d) == {"f", "g"} == Files(CONVERTED);
    assert d.scope == CONVERTED.scope;
  }

  lemma BetweenReads(neighbour: Plan, whole: Admission, split: Option<Submission>)
    requires neighbour.task == "b" && Files(neighbour) == {"f"} && !IsBlanket(neighbour) && !neighbour.claim.Declared?
    ensures var turn := Between(neighbour, whole, split);
            && Joined(turn.near, "r", 0) && OthersRead(turn, 0) == {1}
            && Conversion(turn.near, {1}, BlanketPlan("h", {"f"}), {"g"}, {"s"}, {}) == Some(CONVERTED)
  {
    var turn := Between(neighbour, whole, split);
    assert turn.near[1].active;
    assert PlanOn(turn.near, 1) == neighbour;
    assert Unoccupied(turn.near, {1}, {"g"}) == {"g"};
    DeclaresBoth();
  }

  lemma BetweenConverts(neighbour: Plan, whole: Admission, split: Option<Submission>)
    requires neighbour.task == "b" && Files(neighbour) == {"f"} && !IsBlanket(neighbour) && !neighbour.claim.Declared?
    requires Approves(Between(neighbour, whole, split).hearing, CONVERTED)
    ensures var z := FreezeClaim(Between(neighbour, whole, split), {}, 0, BlanketPlan("h", {"f"}), {"f"}, Said({"g"}, {"s"}));
            z.answer == Became(CONVERTED) && 0 in z.table && z.table[0].submission == Some(Submission(CONVERTED, GRANTED))
  {
    BetweenReads(neighbour, whole, split);
    var turn := Between(neighbour, whole, split);
    var claim := BlanketPlan("h", {"f"});
    assert Without(claim, GivenBack(turn.seen[0])) == claim;
    assert ApprovedOthers(turn.table, "r", 0) == {1};
    hide Approves, Rule, Conversion, Joined, OthersRead, GivenBack, Without, ApprovedOthers, CONVERTED;
  }

  /** It does share a file: the neighbour was let into one symbol of "f", and the holder keeps another. */
  lemma ConversionSharesAFile()
    ensures var b := Plan("b", map["f" := {"t"}], Ordinary);
            var turn := Between(b, GRANTED, None);
            var z := FreezeClaim(turn, {}, 0, BlanketPlan("h", {"f"}), {"f"}, Said({"g"}, {"s"}));
            && z.answer == Became(CONVERTED) && 0 in z.table && z.table[0].submission == Some(Submission(CONVERTED, GRANTED))
            && Competent(Opinion(CONVERTED, GRANTED, None), turn.hearing.active)
            && Touches(CONVERTED, "f") && Touches(b, "f") && Compatible(CONVERTED, b)
  {
    var b := Plan("b", map["f" := {"t"}], Ordinary);
    hide FreezeClaim;
    assert !Blocks(CONVERTED, Entry("b", Some(1), "", b, None));
    BetweenConverts(b, GRANTED, None);
  }

  /** And it overlaps a claim: "f" is frozen to the neighbour, so arbitration grants the holder only the
      part without it, and the whole is written. */
  lemma ConversionOverlapsAClaim()
    ensures var b := Plan("b", map["f" := {}], Frozen);
            var part := Submission(Plan("h", map["g" := {"s"}], Ordinary), Admission(ApprovedWithConstraints, [], {"f"}));
            var turn := Between(b, GRANTED, Some(part));
            var z := FreezeClaim(turn, {}, 0, BlanketPlan("h", {"f"}), {"f"}, Said({"g"}, {"s"}));
            && z.answer == Became(CONVERTED) && 0 in z.table && z.table[0].submission == Some(Submission(CONVERTED, GRANTED))
            && Competent(Opinion(CONVERTED, GRANTED, Some(part)), turn.hearing.active)
            && HoldsWhole(b, "f") && Touches(CONVERTED, "f") && !Compatible(CONVERTED, b)
  {
    var b := Plan("b", map["f" := {}], Frozen);
    var part := Submission(Plan("h", map["g" := {"s"}], Ordinary), Admission(ApprovedWithConstraints, [], {"f"}));
    hide FreezeClaim;
    assert "f" in Files(CONVERTED) && ClaimOccupies(b, "f");
    assert Covers(CONVERTED, "f", "s") && Covers(b, "f", "s");
    BetweenConverts(b, GRANTED, Some(part));
  }

  // ----- Narrowing on arrival

  /** The stale turns leave the request a claim by the same task, on files it had named. */
  lemma {:induction false} RetriesOnlyTakeOff(turns: seq<Turn>, asked: set<TaskId>, id: LeaseId, plan: Plan,
                                              estimate: set<File>, ask: Ask)
    requires turns != []
    ensures var r := LastTurn(turns, asked, id, plan, estimate, ask);
            && r.plan.task == plan.task && r.plan.claim == plan.claim && asked <= r.asked
            && Files(r.plan) <= Files(plan) && r.estimate <= estimate
            && (Files(plan) == estimate ==> Files(r.plan) == r.estimate)
            && (forall f :: f in Files(plan) && f !in Files(r.plan) ==>
                  exists k :: 0 <= k < r.turn && id in turns[k].seen && f in GivenBack(turns[k].seen[id]))
    decreases |turns|
  {
    hide FreezeClaim, GivenBack;
    var z := FreezeClaim(turns[0], asked, id, plan, estimate, ask);
    if z.answer.Reread? && |turns| > 1 {
      var given := GivenBack(turns[0].seen[id]);
      var rest := turns[1..];
      FreezeAnswersIff(turns[0], asked, id, plan, estimate, ask);
      hide IsDue, Ground, Converts, IsThere, IsUnmoved;
      RetriesOnlyTakeOff(rest, z.asked, id, Without(plan, given), estimate - given, ask);
      var r := LastTurn(turns, asked, id, plan, estimate, ask);
      forall f | f in Files(plan) && f !in Files(r.plan)
        ensures exists k :: 0 <= k < r.turn && id in turns[k].seen && f in GivenBack(turns[k].seen[id])
      {
        if f in given {
          assert f in GivenBack(turns[0].seen[id]);
        } else {
          var k :| 0 <= k < r.turn - 1 && id in rest[k].seen && f in GivenBack(rest[k].seen[id]);
          assert f in GivenBack(turns[k + 1].seen[id]);
        }
      }
    }
  }

  /** Another turn is taken exactly where the one before found the admitted set moved, and never asks the
      holder again. */
  lemma {:induction false} TurnsBeforeWereStale(turns: seq<Turn>, asked: set<TaskId>, id: LeaseId, plan: Plan,
                                                estimate: set<File>, ask: Ask)
    requires turns != []
    ensures var r := LastTurn(turns, asked, id, plan, estimate, ask);
            && (r.turn + 1 < |turns| ==> !FreezeClaim(turns[r.turn], r.asked, id, r.plan, r.estimate, ask).answer.Reread?)
            && (forall k :: 0 <= k < r.turn ==> id in turns[k].seen && IsThere(turns[k], id) && !IsUnmoved(turns[k], id))
            && (r.turn > 0 ==> ask.Unreachable? || plan.task in r.asked)
            && asked <= r.asked <= asked + {plan.task}
    decreases |turns|
  {
    hide FreezeClaim, GivenBack;
    FreezeAnswersIff(turns[0], asked, id, plan, estimate, ask);
    hide IsDue, Ground, Converts, IsThere, IsUnmoved;
    var z := FreezeClaim(turns[0], asked, id, plan, estimate, ask);
    if z.answer.Reread? && |turns| > 1 {
      var given := GivenBack(turns[0].seen[id]);
      var rest := turns[1..];
      TurnsBeforeWereStale(rest, z.asked, id, Without(plan, given), estimate - given, ask);
      assert forall k :: 0 < k < |turns| ==> turns[k] == rest[k - 1];
    }
  }

  /** What an arrival is told. Without a holder to narrow, or a reading of it, the claim stands. Otherwise
      the freeze's answer is its own, a claim still being answered for stands, and where the freeze comes
      to nothing the first reading is frozen, if that can still be written. */
  lemma ArrivalAnswersIff(table: Leases, asked: set<TaskId>, seen: Leases, id: LeaseId, holder: Plan, wanted: set<File>,
                          ask: Ask, first: Option<set<File>>, turns: seq<Turn>)
    requires !ask.Unreachable? ==> turns != []
    ensures var a := NarrowOnArrival(table, asked, seen, id, holder, wanted, ask, first, turns);
            var starts := id in seen && seen[id].active && seen[id].submission.Some? && first.Some?;
            if !starts then a == Arrival(Stands, table, table, asked)
            else
              var kept := StillKept(holder, wanted, first.value);
              var z := if ask.Unreachable? then Freezing(Kept, table, asked)
                       else FreezeTurns(turns, asked, id, kept, Files(kept), ask);
              && a.asked == z.asked
              && (z.answer.Became? ==> a.answer == Narrowed(z.answer.plan) && a.table == z.table)
              && (z.answer.AskPending? ==> a.answer.Stands? && a.table == a.found)
              && (a.answer.Retrying? <==> z.answer.Reread?)
              && (z.answer.Kept? || z.answer.Unreadable? ==>
                    if id in table && table[id].active
                       && ApprovedOthers(table, table[id].repository, id) == ApprovedOthers(seen, seen[id].repository, id)
                    then a.answer == Narrowed(Freeze(kept, first.value))
                         && a.table == table[id := table[id].(submission := Some(Submission(a.answer.plan, GRANTED)))]
                    else a.answer.Stands? && a.table == table)
  {
    hide FreezeClaim, LastTurn, Freeze, StillKept, ApprovedOthers;
  }

  /** A narrowing that writes is one guarded save of the plan it answers with, over whatever is stored,
      under the admitted set its neighbours were read as. */
  lemma ArrivalIsOneSave(table: Leases, asked: set<TaskId>, seen: Leases, id: LeaseId, holder: Plan, wanted: set<File>,
                         ask: Ask, first: Option<set<File>>, turns: seq<Turn>)
    returns (ids: set<LeaseId>)
    requires !ask.Unreachable? ==> turns != []
    requires var a := NarrowOnArrival(table, asked, seen, id, holder, wanted, ask, first, turns); a.table != a.found
    ensures var a := NarrowOnArrival(table, asked, seen, id, holder, wanted, ask, first, turns);
            a.answer.Narrowed? && Save(a.found, id, Submission(a.answer.plan, GRANTED), ids, true) == (Saved, a.table)
    ensures || (id in seen && ids == ApprovedOthers(seen, seen[id].repository, id))
            || exists k :: 0 <= k < |turns| && id in turns[k].seen && ids == OthersRead(turns[k], id)
  {
    hide FreezeClaim, StillKept, Freeze;
    var kept := StillKept(holder, wanted, first.value);
    ids := ApprovedOthers(seen, seen[id].repository, id);
    if !ask.Unreachable? {
      var r := LastTurn(turns, asked, id, kept, Files(kept), ask);
      var inner := FreezeClaim(turns[r.turn], r.asked, id, r.plan, r.estimate, ask);
      if inner.answer.Became? {
        FreezeIsOneSave(turns[r.turn], r.asked, id, r.plan, r.estimate, ask);
        ids := OthersRead(turns[r.turn], id);
      }
    }
  }

  /** The plan an arrival is told to decide against is what the holder's lease holds: as the write left
      it, or as the freeze's last turn found it. */
  lemma NarrowedIsHeld(table: Leases, asked: set<TaskId>, seen: Leases, id: LeaseId, holder: Plan, wanted: set<File>,
                       ask: Ask, first: Option<set<File>>, turns: seq<Turn>)
    requires !ask.Unreachable? ==> turns != []
    requires IsBlanket(holder)
    requires NarrowOnArrival(table, asked, seen, id, holder, wanted, ask, first, turns).answer.Narrowed?
    ensures var a := NarrowOnArrival(table, asked, seen, id, holder, wanted, ask, first, turns);
            && !IsBlanket(a.answer.plan) && a.answer.plan.task == holder.task
            && (|| (id in a.table && a.table[id].submission == Some(Submission(a.answer.plan, GRANTED)))
                || exists k :: 0 <= k < |turns| && id in turns[k].seen && turns[k].seen[id].submission.Some?
                               && turns[k].seen[id].submission.value.plan == a.answer.plan)
  {
    hide FreezeClaim, StillKept, Freeze;
    var kept := StillKept(holder, wanted, first.value);
    KeptIsClaim(holder, wanted, first.value);
    if !ask.Unreachable? {
      RetriesOnlyTakeOff(turns, asked, id, kept, Files(kept), ask);
      var r := LastTurn(turns, asked, id, kept, Files(kept), ask);
      if FreezeClaim(turns[r.turn], r.asked, id, r.plan, r.estimate, ask).answer.Became? {
        BecameIsHeld(turns[r.turn], r.asked, id, r.plan, r.estimate, ask);
      }
    }
    FreezeIsFrozen(kept, first.value);
  }

  lemma FreezeIsFrozen(p: Plan, changed: set<File>)
    ensures !IsBlanket(Freeze(p, changed)) && Freeze(p, changed).task == p.task
  {
  }

  lemma BecameIsHeld(turn: Turn, asked: set<TaskId>, id: LeaseId, plan: Plan, estimate: set<File>, ask: Ask)
    requires FreezeClaim(turn, asked, id, plan, estimate, ask).answer.Became?
    ensures var z := FreezeClaim(turn, asked, id, plan, estimate, ask);
            && !IsBlanket(z.answer.plan) && z.answer.plan.task == plan.task
            && (|| (id in z.table && z.table[id].submission == Some(Submission(z.answer.plan, GRANTED)))
                || (id in turn.seen && turn.seen[id].submission.Some?
                    && turn.seen[id].submission.value.plan == z.answer.plan))
  {
    hide Approves, OccupiedElsewhere;
  }

  /** Files that no plan compatible with this one reaches: an arrival decided against it is never
      granted any of them. */
  ghost predicate IsOutOfReach(p: Plan, f: File) {
    forall q :: Compatible(q, p) ==> !Touches(q, f)
  }

  /** They are the files it holds whole. */
  lemma OutOfReachIff(p: Plan, f: File)
    ensures IsOutOfReach(p, f) <==> HoldsWhole(p, f)
  {
    if HoldsWhole(p, f) {
      forall q | Compatible(q, p) ensures !Touches(q, f) {
        WholeFilesAreExclusive(q, p, f);
      }
    } else {
      var s := FreshSymbol(if f in p.scope then p.scope[f] else {});
      var q := Plan("", map[f := {s}], Ordinary);
      assert Compatible(q, p) && Touches(q, f);
    }
  }

  /** What a narrowed answer stands on: the arrival's own reading, the plan found stored, or the reading
      of the freeze's last turn beside what it left of the holder's files. */
  datatype Basis = OnFirst(files: set<File>) | OnStored(plan: Plan) | OnSecond(files: set<File>, mine: set<File>)

  function BasisOf(asked: set<TaskId>, id: LeaseId, kept: Plan, ask: Ask, first: set<File>, turns: seq<Turn>): Basis
    requires !ask.Unreachable? ==> turns != []
  {
    if ask.Unreachable? then OnFirst(first)
    else
      var r := LastTurn(turns, asked, id, kept, Files(kept), ask);
      var turn := turns[r.turn];
      if !FreezeClaim(turn, r.asked, id, r.plan, r.estimate, ask).answer.Became? || id !in turn.seen then OnFirst(first)
      else if Converted(turn.seen[id], kept.task) then OnStored(turn.seen[id].submission.value.plan)
      else OnSecond(if turn.observed.Some? then turn.observed.value else {}, Files(r.plan) - GivenBack(turn.seen[id]))
  }

  /** Exactly what a narrowing puts out of the arrival's reach. */
  lemma ArrivalOutOfReachIff(table: Leases, asked: set<TaskId>, seen: Leases, id: LeaseId, holder: Plan,
                             wanted: set<File>, ask: Ask, first: set<File>, turns: seq<Turn>, f: File)
    requires !ask.Unreachable? ==> turns != []
    requires IsBlanket(holder)
    requires NarrowOnArrival(table, asked, seen, id, holder, wanted, ask, Some(first), turns).answer.Narrowed?
    ensures var kept := StillKept(holder, wanted, first);
            var a := NarrowOnArrival(table, asked, seen, id, holder, wanted, ask, Some(first), turns);
            match BasisOf(asked, id, kept, ask, first, turns)
            case OnFirst(files) => a.answer.plan == Freeze(kept, first)
              && (IsOutOfReach(a.answer.plan, f) <==> f in Files(kept) + first)
              && (Touches(a.answer.plan, f) <==> f in Files(kept) + first)
            case OnStored(p) => a.answer.plan == p && a.table == a.found && (IsOutOfReach(p, f) <==> HoldsWhole(p, f))
            case OnSecond(files, mine) =>
              if a.answer.plan.claim.Declared? then
                && ask.Said? && (IsOutOfReach(a.answer.plan, f) <==> f in files && f !in ask.files)
                && (f in files + mine ==> Touches(a.answer.plan, f))
              else
                && (IsOutOfReach(a.answer.plan, f) <==> f in files + mine)
                && (Touches(a.answer.plan, f) <==> f in files + mine)
  {
    hide FreezeClaim, StillKept, Freeze, GivenBack, Converted, IsOutOfReach, HoldsWhole;
    var kept := StillKept(holder, wanted, first);
    var a := NarrowOnArrival(table, asked, seen, id, holder, wanted, ask, Some(first), turns);
    OutOfReachIff(a.answer.plan, f);
    FreezeOccupies(kept, first, f);
    KeptIsClaim(holder, wanted, first);
    if !ask.Unreachable? {
      RetriesOnlyTakeOff(turns, asked, id, kept, Files(kept), ask);
      var r := LastTurn(turns, asked, id, kept, Files(kept), ask);
      if FreezeClaim(turns[r.turn], r.asked, id, r.plan, r.estimate, ask).answer.Became? {
        FrozenFootprint(turns[r.turn], r.asked, id, r.plan, ask, f);
      }
    }
  }

  lemma KeptIsClaim(holder: Plan, wanted: set<File>, first: set<File>)
    ensures var kept := StillKept(holder, wanted, first);
            kept.claim == holder.claim && kept.task == holder.task
            && Files(kept) == Files(holder) - ReleasedTo(Files(holder), wanted, first)
  {
  }

  /** What one turn that answers leaves the holder, where the request's estimate is its plan's. */
  lemma FrozenFootprint(turn: Turn, asked: set<TaskId>, id: LeaseId, plan: Plan, ask: Ask, f: File)
    requires FreezeClaim(turn, asked, id, plan, Files(plan), ask).answer.Became?
    ensures id in turn.seen && (!Converted(turn.seen[id], plan.task) ==> turn.observed.Some?)
    ensures var z := FreezeClaim(turn, asked, id, plan, Files(plan), ask);
            if Converted(turn.seen[id], plan.task) then
              z.answer.plan == turn.seen[id].submission.value.plan && z.table == turn.table
            else
              var files, mine := turn.observed.value, Files(plan) - GivenBack(turn.seen[id]);
              if z.answer.plan.claim.Declared? then
                && ask.Said? && (HoldsWhole(z.answer.plan, f) <==> f in files && f !in ask.files)
                && (f in files + mine ==> Touches(z.answer.plan, f))
              else
                && (HoldsWhole(z.answer.plan, f) <==> f in files + mine)
                && (Touches(z.answer.plan, f) <==> f in files + mine)
  {
    hide Approves;
  }

  /** Safety of a narrowing. A file that every reading of the holder's worktree found dirty is out of the
      arrival's reach, and in the plan it is decided against, unless that plan was already stored and
      leaves the file free, or the holder's own answer named it. */
  lemma ArrivalStaysOutOfDirtyFilesIff(table: Leases, asked: set<TaskId>, seen: Leases, id: LeaseId, holder: Plan,
                                       wanted: set<File>, ask: Ask, first: set<File>, turns: seq<Turn>, f: File)
    requires !ask.Unreachable? ==> turns != []
    requires IsBlanket(holder)
    requires NarrowOnArrival(table, asked, seen, id, holder, wanted, ask, Some(first), turns).answer.Narrowed?
    requires f in first
    requires var basis := BasisOf(asked, id, StillKept(holder, wanted, first), ask, first, turns);
             basis.OnSecond? ==> f in basis.files
    ensures var basis := BasisOf(asked, id, StillKept(holder, wanted, first), ask, first, turns);
            var p := NarrowOnArrival(table, asked, seen, id, holder, wanted, ask, Some(first), turns).answer.plan;
            && (Touches(p, f) <==> !(basis.OnStored? && !Touches(basis.plan, f)))
            && (IsOutOfReach(p, f)
                <==> && !(basis.OnStored? && !HoldsWhole(basis.plan, f))
                     && !(basis.OnSecond? && p.claim.Declared? && ask.Said? && f in ask.files))
  {
    hide NarrowOnArrival, BasisOf, IsOutOfReach, HoldsWhole, StillKept;
    ArrivalOutOfReachIff(table, asked, seen, id, holder, wanted, ask, first, turns, f);
  }

  /** So a dirty file is given away: somebody else narrowed the claim, the holder then wrote in a file
      it was not left with, and the arrival, which saw that, is answered from what is stored. */
  lemma StoredAnswerGivesADirtyFileAway(table: Leases, id: LeaseId, stored: Plan, hearing: Hearing, f: File)
    requires id in table && table[id].active && table[id].submission == Some(Submission(stored, GRANTED))
    requires !IsBlanket(stored) && f !in Files(stored)
    ensures var turn := Turn(table, table, table, hearing, Some({f}));
            var a := NarrowOnArrival(table, {}, table, id, BlanketPlan(stored.task, {f}), {f}, Silent, Some({f}), [turn]);
            && a.answer == Narrowed(stored) && a.table == a.found
            && forall task :: Compatible(Plan(task, map[f := {}], Ordinary), stored)
  {
  }

  /** What only the arrival's own reading found dirty is dropped by a freeze that reads again, unless it
      was estimated. */
  lemma FirstReadingIsDropped(table: Leases, hearing: Hearing)
    requires table == map[0 := Lease("h", "r", None, true, Some(Submission(BlanketPlan("h", {}), GRANTED))),
                          1 := Lease("b", "r", None, true, None)]
    ensures var turn := Turn(table, table, table, hearing, Some({"g"}));
            var a := NarrowOnArrival(table, {}, table, 0, BlanketPlan("h", {}), {"f"}, Silent, Some({"f"}), [turn]);
            a.answer == Narrowed(FrozenTo({"g"})) && a.table != a.found && !Touches(a.answer.plan, "f")
  {
    hide Approves, Conversion;
    var turn := Turn(table, table, table, hearing, Some({"g"}));
    var claim := BlanketPlan("h", {});
    assert StillKept(claim, {"f"}, {"f"}) == claim && Without(claim, {}) == claim;
    assert table[1].active && Joined(table, "r", 0);
    assert OthersRead(turn, 0) == {};
    assert Freeze(claim, {"g"}) == FrozenTo({"g"}) by {
      assert Files(claim) + {"g"} == {"g"};
    }
  }

  /** What an arrival gains from a holder that cannot be asked: exactly the estimated files it wants
      that nobody is writing, and nothing from a holder that has written nothing. */
  lemma NarrowedFootprint(table: Leases, asked: set<TaskId>, seen: Leases, id: LeaseId, holder: Plan, wanted: set<File>,
                          first: set<File>, turns: seq<Turn>, f: File)
    requires IsBlanket(holder)
    requires NarrowOnArrival(table, asked, seen, id, holder, wanted, Unreachable, Some(first), turns).answer.Narrowed?
    ensures var p := NarrowOnArrival(table, asked, seen, id, holder, wanted, Unreachable, Some(first), turns).answer.plan;
            && (Touches(p, f) <==> f in first || (f in Files(holder) && (first == {} || f !in wanted)))
            && (HoldsWhole(p, f) <==> Touches(p, f))
            && (ClaimOccupies(p, f) <==> Touches(p, f))
  {
    FreezeOccupies(StillKept(holder, wanted, first), first, f);
  }

  /** When the plan an arrival writes over the holder's is a narrowing of it. The write looks at no
      stored plan: it narrows what is stored exactly when there is room in that for every file it
      names. Over a claim still stored that means nothing it names had been given back; over a claim
      already frozen, that every file of a freeze is among those it was frozen to. */
  lemma ArrivalNarrowsStoredIff(table: Leases, asked: set<TaskId>, seen: Leases, id: LeaseId, holder: Plan,
                                wanted: set<File>, ask: Ask, first: Option<set<File>>, turns: seq<Turn>)
    requires !ask.Unreachable? ==> turns != []
    requires var a := NarrowOnArrival(table, asked, seen, id, holder, wanted, ask, first, turns);
             a.table != a.found && id in a.found && Executes(a.found[id])
    ensures var a := NarrowOnArrival(table, asked, seen, id, holder, wanted, ask, first, turns);
            && a.answer.Narrowed? && !IsBlanket(a.answer.plan)
            && var p, stored := a.answer.plan, PlanOn(a.found, id);
            && a.table == a.found[id := a.found[id].(submission := Some(Submission(p, GRANTED)))]
            && (Narrows(p, stored) <==> forall f :: f in Files(p) ==> HasRoomFor(stored, p, f))
            && (IsBlanket(stored) ==> (Narrows(p, stored) <==> Files(p) !! stored.claim.released))
            && (p == Freeze(p, {}) && stored == Freeze(stored, {})
                ==> (Narrows(p, stored) <==> Files(p) <= Files(stored)))
  {
    hide FreezeClaim, Save, Narrows, StillKept, LastTurn;
    var kept := StillKept(holder, wanted, first.value);
    if !ask.Unreachable? {
      var r := LastTurn(turns, asked, id, kept, Files(kept), ask);
      if FreezeClaim(turns[r.turn], r.asked, id, r.plan, r.estimate, ask).table != turns[r.turn].table {
        FreezeWrites(turns[r.turn], r.asked, id, r.plan, r.estimate, ask);
      }
    }
    var a := NarrowOnArrival(table, asked, seen, id, holder, wanted, ask, first, turns);
    NarrowsIff(a.answer.plan, PlanOn(a.found, id));
    if IsBlanket(PlanOn(a.found, id)) {
      NarrowsClaimIff(a.answer.plan, PlanOn(a.found, id));
    }
  }

  /** And it does widen: a claim frozen to `g` by one arrival is rewritten to `f` and `g` by another
      that had read it before. */
  lemma ArrivalWidensANarrowedClaim(table: Leases, f: File, g: File)
    requires f != g && 0 in table && table[0].active && table[0].submission == Some(Submission(FrozenTo({g}), GRANTED))
    ensures var a := NarrowOnArrival(table, {}, table, 0, BlanketPlan("h", {f}), {}, Unreachable, Some({g}), []);
            && a.answer == Narrowed(FrozenTo({f, g})) && !Narrows(a.answer.plan, PlanOn(table, 0))
            && a.found == table && a.table == table[0 := table[0].(submission := Some(Submission(FrozenTo({f, g}), GRANTED)))]
  {
    var claim := BlanketPlan("h", {f});
    assert Files(claim) == {f} && ReleasedTo({f}, {}, {g}) == {};
    var kept := Without(claim, {});
    assert Freeze(kept, {g}) == FrozenTo({f, g}) by {
      assert Files(kept) + {g} == {f, g};
    }
    assert f in Files(FrozenTo({f, g})) && f !in Files(FrozenTo({g}));
    var a := NarrowOnArrival(table, {}, table, 0, claim, {}, Unreachable, Some({g}), []);
    assert a.table[0].submission == Some(Submission(FrozenTo({f, g}), GRANTED));
    ArrivalNarrowsStoredIff(table, {}, table, 0, claim, {}, Unreachable, Some({g}), []);
    assert f in Files(FrozenTo({f, g})) && !HasRoomFor(PlanOn(table, 0), FrozenTo({f, g}), f);
  }

  // ----- Failed readings

  /** The inner freeze has an answer that needs no reading: the claim is converted already, or the
      holder is still thinking. */
  predicate Answered(turn: Turn, asked: set<TaskId>, id: LeaseId, plan: Plan, ask: Ask) {
    && IsBlanket(plan) && id in turn.seen && turn.seen[id].active
    && (|| Converted(turn.seen[id], plan.task)
        || (Joined(turn.near, turn.seen[id].repository, id) && ask.StillThinking? && plan.task !in asked))
  }

  /** What failed readings do. A failed first reading changes nothing. A failed second one does not
      stop the narrowing: it goes ahead on the first, and changes the table exactly when the inner freeze
      had no other answer and the save over the admitted set read first goes through with a new plan. */
  lemma FailedReadingChangesIff(table: Leases, asked: set<TaskId>, seen: Leases, id: LeaseId, holder: Plan,
                                wanted: set<File>, ask: Ask, first: Option<set<File>>, turns: seq<Turn>)
    requires !ask.Unreachable? && turns != []
    ensures first.None? ==>
      NarrowOnArrival(table, asked, seen, id, holder, wanted, ask, first, turns) == Arrival(Stands, table, table, asked)
    ensures first.Some? ==>
      var kept := StillKept(holder, wanted, first.value);
      var r := LastTurn(turns, asked, id, kept, Files(kept), ask);
      var a := NarrowOnArrival(table, asked, seen, id, holder, wanted, ask, first, turns);
      turns[r.turn].observed.None? ==>
        (a.table != a.found
         <==> && id in seen && seen[id].active && seen[id].submission.Some?
              && !Answered(turns[r.turn], r.asked, id, r.plan, ask)
              && id in table && table[id].active
              && ApprovedOthers(table, table[id].repository, id) == ApprovedOthers(seen, seen[id].repository, id)
              && table[id].submission != Some(Submission(Freeze(kept, first.value), GRANTED)))
  {
    hide Freeze, StillKept, GivenBack, ApprovedOthers, LastTurn, Approves, Conversion, Joined, OthersRead, Without, Converted;
    if first.Some? {
      var kept := StillKept(holder, wanted, first.value);
      RetriesOnlyTakeOff(turns, asked, id, kept, Files(kept), ask);
    }
  }

  /** So it does change one: a reachable holder whose worktree is read once and then not again. */
  lemma FailedReadingStillNarrows(table: Leases, hearing: Hearing)
    requires table == map[0 := Lease("h", "r", None, true, Some(Submission(BlanketPlan("h", {"f"}), GRANTED))),
                          1 := Lease("b", "r", None, true, None)]
    ensures var turn := Turn(table, table, table, hearing, None);
            var a := NarrowOnArrival(table, {}, table, 0, BlanketPlan("h", {"f"}), {"f"}, Silent, Some({"g"}), [turn]);
            a.answer == Narrowed(FrozenTo({"g"})) && a.found == table != a.table
  {
    var claim := BlanketPlan("h", {"f"});
    assert ReleasedTo(Files(claim), {"f"}, {"g"}) == {"f"};
    var kept := Without(claim, {"f"});
    assert Files(kept) == {};
    assert Freeze(kept, {"g"}) == FrozenTo({"g"}) by {
      assert Files(kept) + {"g"} == {"g"};
    }
    assert table[1].active && Joined(table, "r", 0);
    FailedReadingChangesIff(table, {}, table, 0, claim, {"f"}, Silent, Some({"g"}), [Turn(table, table, table, hearing, None)]);
  }
}
