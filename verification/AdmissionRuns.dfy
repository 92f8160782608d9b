/** Properties of whole sequences of admission calls. */
module AdmissionRuns {
  import opened Optional
  import opened Plans
  import opened LeaseStore
  import opened AdmissionTrail
  import opened HolderNarrowing
  import opened PlanAuthority
  import opened PlanDecision
  import P = AdmissionProtocol

  /** Every write an admission attempts is a decision of the interleaved protocol: what it is about to
      commit was arbitrated against the view it carries, and only admitted plans replace admitted ones. */
  lemma AttemptsAreDecisions(desk: Desk, c: Call, seen: Leases)
    requires Lawful(c) && ReadFrom(seen, c) && P.BlanketAlone(seen) && Attempt(desk, c).Some?
    requires c.narrowed.Some? ==> !IsBlanket(c.narrowed.value.0)
    requires IsBlanket(c.request.plan) ==> c.reading.ids == {}
    ensures var view := map i | i in c.reading.ids :: ViewedPlan(seen, c, i);
            var p := P.Decided(c.lease.value, c.reading.ids, view, Attempt(desk, c).value, c.request.revising);
            if IsApproved(Attempt(desk, c).value.admission) then P.ArbitratedAgainst(seen, p) else !p.replace
  {
    hide Rule, Compatible, Narrows;
    if IsApproved(Attempt(desk, c).value.admission) {
      forall i | i in c.reading.ids
        ensures !IsBlanket(ViewedPlan(seen, c, i))
        ensures P.Contend(seen, c.lease.value, i) ==> Compatible(Attempt(desk, c).value.plan, ViewedPlan(seen, c, i))
      {
        ViewedIsNarrow(c, seen, i);
        if P.Contend(seen, c.lease.value, i) {
          WritingIsArbitrated(desk, c, seen, i);
        }
      }
      if IsBlanket(Attempt(desk, c).value.plan) {
        ApprovedIsArbitrated(c.opinion, View(c), SplitAllowed(desk, c.request));
        NarrowIsNotBlanket(VerdictOn(desk, c).granted, c.opinion.enriched);
      }
    }
  }

  lemma NarrowIsNotBlanket(p: Plan, q: Plan)
    requires Narrows(p, q)
    ensures IsBlanket(p) ==> IsBlanket(q)
  {
  }

  /** What is still repository-wide is never decided against. */
  lemma ViewedIsNarrow(c: Call, seen: Leases, i: LeaseId)
    requires ReadFrom(seen, c) && P.BlanketAlone(seen) && Standing(c).0.None?
    requires c.narrowed.Some? ==> !IsBlanket(c.narrowed.value.0)
    requires i in c.reading.ids
    ensures !IsBlanket(ViewedPlan(seen, c, i))
  {
    assert Entered(seen, c, i);
    var k :| 0 <= k < |c.reading.active| && EntryIs(c.reading.active[k], i, seen[i]);
    var blanket := FirstBlanket(c.reading.active);
    if blanket.None? {
      NoBlanketFound(c.reading.active, k);
    } else {
      BlanketFound(c.reading.active);
      var j :| 0 <= j < |c.reading.active| && c.reading.active[j] == blanket.value && IsBlanket(c.reading.active[j].plan);
      assert Sourced(seen, c, c.reading.active[j]);
    }
  }

  /** Every write of a freeze is a rewrite of the protocol: prepared where the neighbours were read,
      whatever the claim was read as before, and committed on the table as it is. */
  lemma FreezesAreRewrites(turn: Turn, asked: set<TaskId>, id: LeaseId, plan: Plan, estimate: set<File>, ask: Ask,
                           before: map<P.OpId, P.Pending>, after: map<P.OpId, P.Pending>, op: P.OpId,
                           reader: Option<P.OpId>)
    requires FreezeClaim(turn, asked, id, plan, estimate, ask).table != turn.table && op !in before && reader != Some(op)
    requires id in turn.seen && id in turn.near && turn.near[id].repository == turn.seen[id].repository
    requires var z := FreezeClaim(turn, asked, id, plan, estimate, ask);
             op in after && z.answer.Became? && after[op] == P.Rewriting(id, OthersRead(turn, id), z.answer.plan, reader)
    ensures var z := FreezeClaim(turn, asked, id, plan, estimate, ask);
            var prepare := P.Rewrite(op, id, z.answer.plan, reader);
            && P.Enabled(P.State(turn.near, before), prepare)
            && P.Next(P.State(turn.near, before), prepare).pending[op] == after[op]
            && P.Enabled(P.State(turn.table, after), P.Commit(op))
            && P.Next(P.State(turn.table, after), P.Commit(op)).leases == z.table
  {
    hide Save, Executes;
    FreezeIsOneSave(turn, asked, id, plan, estimate, ask);
    hide FreezeClaim;
  }

  /** So is every write of an arrival, by either of its two ways. */
  lemma ArrivalsAreRewrites(table: Leases, asked: set<TaskId>, seen: Leases, id: LeaseId, holder: Plan, wanted: set<File>,
                            ask: Ask, first: Option<set<File>>, turns: seq<Turn>,
                            after: map<P.OpId, P.Pending>, op: P.OpId, reader: Option<P.OpId>)
    returns (ids: set<LeaseId>)
    requires !ask.Unreachable? ==> turns != []
    requires var a := NarrowOnArrival(table, asked, seen, id, holder, wanted, ask, first, turns); a.table != a.found
    ensures || (id in seen && ids == ApprovedOthers(seen, seen[id].repository, id))
            || exists k :: 0 <= k < |turns| && id in turns[k].seen && ids == OthersRead(turns[k], id)
    ensures var a := NarrowOnArrival(table, asked, seen, id, holder, wanted, ask, first, turns);
            && a.answer.Narrowed?
            && (op in after && after[op] == P.Rewriting(id, ids, a.answer.plan, reader) ==>
                  && P.Enabled(P.State(a.found, after), P.Commit(op))
                  && P.Next(P.State(a.found, after), P.Commit(op)).leases == a.table)
  {
    hide Save, Executes;
    ids := ArrivalIsOneSave(table, asked, seen, id, holder, wanted, ask, first, turns);
    hide NarrowOnArrival;
  }

  /** One call in a run: the table as everybody else has left it, the call, and the follow-up task that
      would be queued for what the call withholds. */
  datatype Visit = Visit(table: Leases, call: Call, child: TaskId)

  function At(desk: Desk, visit: Visit): Desk {
    desk.(leases := visit.table)
  }

  function AnswerOf(desk: Desk, visit: Visit, maxWait: Millis): Answer {
    Admit(At(desk, visit), visit.call, maxWait).0
  }

  function DeskAfter(desk: Desk, visit: Visit, maxWait: Millis): Desk {
    Admit(At(desk, visit), visit.call, maxWait).1
  }

  function Play(desk: Desk, visits: seq<Visit>, maxWait: Millis): Desk
    decreases |visits|
  {
    if visits == [] then desk else Play(DeskAfter(desk, visits[0], maxWait), visits[1..], maxWait)
  }

  // Bounded waiting.

  predicate Waits(desk: Desk, t: TaskId, since: Millis) {
    t in desk.since && desk.since[t] == since
  }

  /** A refusal on either path starts the clock or leaves it running; nobody else's call touches it. */
  lemma ClockIsKept(desk: Desk, c: Call, maxWait: Millis, t: TaskId, since: Millis)
    ensures var (a, d) := Admit(desk, c, maxWait);
            && (Waits(desk, t, since) && (c.request.task != t || !a.Admitted?) ==> Waits(d, t, since))
            && (c.request.task == t && t !in desk.since && a.Deferred? ==> Waits(d, t, c.now))
  {
    hide Save, Rule, Standing, Record, WasPartial;
  }

  /** Asking again once the bound has passed is never refused; behind a repository-wide claim it is
      let through exactly then. */
  lemma OverdueIsNotRefused(desk: Desk, c: Call, maxWait: Millis, since: Millis)
    requires Waits(desk, c.request.task, since)
    requires !c.request.revising && !WasPartial(TrailOf(desk, c.request.task))
    ensures c.now - since >= maxWait ==> !Admit(desk, c, maxWait).0.Deferred?
    ensures c.lease.Some? && c.reading.live && c.reading.active != [] && Standing(c).0.Some? ==>
      (Admit(desk, c, maxWait).0.Admitted? <==> c.now - since >= maxWait)
  {
  }

  predicate NeverAdmitted(desk: Desk, visits: seq<Visit>, t: TaskId, maxWait: Millis)
    decreases |visits|
  {
    visits == [] ||
    (&& (visits[0].call.request.task == t ==> !AnswerOf(desk, visits[0], maxWait).Admitted?)
     && NeverAdmitted(DeskAfter(desk, visits[0], maxWait), visits[1..], t, maxWait))
  }

  lemma {:induction false} ClockIsKeptThroughout(desk: Desk, visits: seq<Visit>, t: TaskId, maxWait: Millis, since: Millis)
    requires Waits(desk, t, since) && NeverAdmitted(desk, visits, t, maxWait)
    ensures Waits(Play(desk, visits, maxWait), t, since)
    decreases |visits|
  {
    if visits != [] {
      ClockIsKept(At(desk, visits[0]), visits[0].call, maxWait, t, since);
      ClockIsKeptThroughout(DeskAfter(desk, visits[0], maxWait), visits[1..], t, maxWait, since);
    }
  }

  /** From its first refusal on, through any mixture of refusals, stale retries and other tasks' calls,
      a task's clock is never reset: once `maxWait` has passed since that first refusal, an initial
      request of a task never split is not refused again. */
  lemma WaitingIsBounded(desk: Desk, first: Visit, visits: seq<Visit>, last: Visit, t: TaskId, maxWait: Millis)
    requires first.call.request.task == t && t !in desk.since && AnswerOf(desk, first, maxWait).Deferred?
    requires NeverAdmitted(DeskAfter(desk, first, maxWait), visits, t, maxWait)
    requires last.call.request.task == t && !last.call.request.revising
    requires var d := Play(DeskAfter(desk, first, maxWait), visits, maxWait); !WasPartial(TrailOf(d, t))
    requires last.call.now >= first.call.now + maxWait
    ensures var d := Play(DeskAfter(desk, first, maxWait), visits, maxWait);
            !AnswerOf(d, last, maxWait).Deferred?
  {
    ClockIsKept(At(desk, first), first.call, maxWait, t, first.call.now);
    var d0 := DeskAfter(desk, first, maxWait);
    ClockIsKeptThroughout(d0, visits, t, maxWait, first.call.now);
    var d := Play(d0, visits, maxWait);
    OverdueIsNotRefused(At(d, last), last.call, maxWait, first.call.now);
  }

  // Splitting.

  /** The call grants part of its plan and that grant is saved. */
  predicate Splits(desk: Desk, visit: Visit) {
    var c := visit.call;
    && Attempt(desk, c).Some? && IsPartial(Attempt(desk, c).value.admission)
    && Save(visit.table, c.lease.value, Attempt(desk, c).value, c.reading.ids, c.request.revising).0.Saved?
  }

  /** No other task's claim, in the view the call decides against, holds anything of its plan. */
  predicate Unclaimed(visit: Visit) {
    !ClaimBlocks(visit.call.opinion.enriched, View(visit.call))
  }

  lemma NotedOn(desk: Desk, r: TaskId, e: Event, t: TaskId)
    ensures WasPartial(TrailOf(WithEvent(desk, r, e), t)) <==> WasPartial(TrailOf(desk, t)) || (t == r && e.partial)
  {
    RecordOnlyAdds(TrailOf(desk, r), e);
  }

  lemma ConcludeRemembers(desk: Desk, r: Request, granted: Plan, a: Admission, split: bool,
                          now: Millis, maxWait: Millis, t: TaskId)
    ensures WasPartial(TrailOf(Conclude(desk, r, granted, a, split, now, maxWait).1, t))
            <==> WasPartial(TrailOf(desk, t)) || (t == r.task && IsPartial(a))
  {
    var (waited, ticking) := Waited(desk, r.task, IsApproved(a), now);
    var forced := MayForce(r, split, waited, maxWait) && !IsApproved(a);
    NotedOn(ticking, r.task, AdmissionEvent(a, granted, forced, waited), t);
  }

  lemma SettleRemembers(desk: Desk, l: LeaseId, r: Request, ids: set<LeaseId>, v: Verdict, split: bool,
                        now: Millis, maxWait: Millis, t: TaskId)
    ensures var d := Settle(desk, l, r, ids, v, split, now, maxWait).1;
            && (WasPartial(TrailOf(desk, t)) ==> WasPartial(TrailOf(d, t)))
            && (t == r.task && IsPartial(v.admission)
                && Save(desk.leases, l, Submission(v.granted, v.admission), ids, r.revising).0.Saved?
                ==> WasPartial(TrailOf(d, t)))
  {
    var write := !(r.revising && !IsApproved(v.admission));
    var (outcome, leases) :=
      if write then Save(desk.leases, l, Submission(v.granted, v.admission), ids, r.revising) else (Saved, desk.leases);
    var a := if outcome.AlreadyAdmitted? then outcome.stored.admission else v.admission;
    ConcludeRemembers(desk.(leases := leases), r, v.granted, a, split, now, maxWait, t);
  }

  lemma OthersRemember(desk: Desk, l: LeaseId, r: Request, ids: set<LeaseId>, holder: TaskId, split: bool,
                       now: Millis, maxWait: Millis, t: TaskId)
    requires WasPartial(TrailOf(desk, t))
    ensures WasPartial(TrailOf(PublishPlan(desk, l, r, ids).1, t))
    ensures WasPartial(TrailOf(BehindBlanket(desk, r, holder, split, now, maxWait).1, t))
  {
    var leases := Save(desk.leases, l, Submission(r.plan, GRANTED), ids, r.revising).1;
    NotedOn(desk.(leases := leases), r.task, Event(Approved, [], false, {}, false, 0), t);
    var (waited, ticking) := Waited(desk, r.task, false, now);
    var forced := MayForce(r, split, waited, maxWait);
    NotedOn(ticking, r.task, Event(Sequenced, [holder], false, {}, forced, if forced then AsNat(waited) else 0), t);
  }

  /** A trail never forgets a split, and every saved split is on the trail when the call returns. */
  lemma SplitsAreRemembered(desk: Desk, visit: Visit, maxWait: Millis, t: TaskId)
    ensures WasPartial(TrailOf(desk, t)) ==> WasPartial(TrailOf(DeskAfter(desk, visit, maxWait), t))
    ensures Splits(desk, visit) && visit.call.request.task == t
            ==> WasPartial(TrailOf(DeskAfter(desk, visit, maxWait), t))
  {
    var c, at := visit.call, At(desk, visit);
    if c.lease.Some? && c.reading.live {
      var split := WasPartial(TrailOf(desk, c.request.task));
      var holder := if Standing(c).0.Some? then Standing(c).0.value.task else "";
      if WasPartial(TrailOf(desk, t)) {
        OthersRemember(at, c.lease.value, c.request, c.reading.ids, holder, split, c.now, maxWait, t);
      }
      SettleRemembers(at, c.lease.value, c.request, c.reading.ids, VerdictOn(at, c), split, c.now, maxWait, t);
    }
  }

  function CountSplits(desk: Desk, visits: seq<Visit>, t: TaskId, maxWait: Millis): nat
    decreases |visits|
  {
    if visits == [] then 0
    else (if visits[0].call.request.task == t && Splits(desk, visits[0]) then 1 else 0)
         + CountSplits(DeskAfter(desk, visits[0], maxWait), visits[1..], t, maxWait)
  }

  ghost predicate AllLawful(visits: seq<Visit>) {
    forall k :: 0 <= k < |visits| ==> Lawful(visits[k].call)
  }

  predicate UnclaimedFor(visits: seq<Visit>, t: TaskId) {
    forall k :: 0 <= k < |visits| && visits[k].call.request.task == t ==> Unclaimed(visits[k])
  }

  predicate FollowsUp(visits: seq<Visit>, t: TaskId) {
    forall k :: 0 <= k < |visits| && visits[k].call.request.task == t ==> visits[k].call.request.followUp
  }

  /** A split the request did not allow takes a claim in the way. */
  lemma SplitTakesLeaveOrClaim(desk: Desk, visit: Visit)
    requires Lawful(visit.call) && Splits(desk, visit) && Unclaimed(visit)
    ensures SplitAllowed(desk, visit.call.request)
    ensures var r := visit.call.request; r.maySplit && !r.followUp && !WasPartial(TrailOf(desk, r.task))
  {
    SplitIff(visit.call.opinion, View(visit.call), SplitAllowed(desk, visit.call.request));
    hide Rule, Competent;
  }

  /** Over any run in which no claim stands in a task's way, the task is split at most once, and not at
      all once it has been; a follow-up is never split. */
  lemma {:induction false} SplitAtMostOnce(desk: Desk, visits: seq<Visit>, t: TaskId, maxWait: Millis)
    requires AllLawful(visits) && UnclaimedFor(visits, t)
    ensures CountSplits(desk, visits, t, maxWait) <= if WasPartial(TrailOf(desk, t)) then 0 else 1
    ensures FollowsUp(visits, t) ==> CountSplits(desk, visits, t, maxWait) == 0
    decreases |visits|
  {
    hide Lawful, Unclaimed, Splits, WasPartial, TrailOf, DeskAfter;
    if visits != [] {
      var rest := visits[1..];
      assert forall k :: 0 <= k < |rest| ==> rest[k] == visits[k + 1];
      SplitsAreRemembered(desk, visits[0], maxWait, t);
      SplitAtMostOnce(DeskAfter(desk, visits[0], maxWait), rest, t, maxWait);
      if visits[0].call.request.task == t && Splits(desk, visits[0]) {
        SplitTakesLeaveOrClaim(desk, visits[0]);
      }
    }
  }

  /** With a claim in the way, splitting asks nobody's leave: a lawful call that may not split grants part
      of its plan exactly where a part can be granted and a claim short of the repository is what
      refuses the whole. */
  lemma SplitsWithoutLeaveIff(desk: Desk, c: Call)
    requires Lawful(c) && !SplitAllowed(desk, c.request)
    ensures IsPartial(VerdictOn(desk, c).admission)
            <==> && c.opinion.split.Some? && ClaimBlocks(c.opinion.enriched, View(c))
                 && !BlanketBlocks(c.opinion.enriched, View(c))
  {
    SplitIff(c.opinion, View(c), SplitAllowed(desk, c.request));
  }

  /** And it happens: a task split before, asking with splitting refused, is split again around a
      frozen claim, whatever the conflict score of its plan. */
  lemma SplitAgainAroundAClaim(whole: Admission, maxWait: Millis) returns (desk: Desk, visit: Visit)
    requires !IsPartial(whole) && !IsApproved(whole)
    ensures Lawful(visit.call) && visit.call.opinion.whole == whole
    ensures Splits(desk, visit) && !visit.call.request.maySplit && WasPartial(TrailOf(desk, visit.call.request.task))
    ensures visit.table.Keys == {0, 1} && P.Exclusive(visit.table)
  {
    var frozen := Plan("holder", map["a" := {}], Frozen);
    var plan := Plan("task", map["a" := {}, "b" := {}], Ordinary);
    var granted := Plan("task", map["b" := {}], Ordinary);
    var before := Event(ApprovedWithConstraints, [], true, {"b"}, false, 0);
    var part := Admission(ApprovedWithConstraints, [], {"a"});
    var mine := Lease("task", "repo", None, true, None);
    var theirs := Lease("holder", "repo", None, true, Some(Submission(frozen, GRANTED)));
    var entry := Entry("holder", Some(1), "", frozen, None);
    var request := Request("task", plan, false, false, false);
    var opinion := Opinion(plan, whole, Some(Submission(granted, part)));
    desk := Desk(map[], map["task" := [before]], map[]);
    var call := Call(Some(0), request, Reading(true, "", [entry], {1}), None, opinion, 0);
    visit := Visit(map[0 := mine, 1 := theirs], call, "child");
    assert desk.trails["task"][0].partial;
    assert NarrowToBranch([], "") == [];
    assert NarrowToBranch([entry], "") == [entry];
    assert FirstBlanket([entry]) == None by { assert FirstBlanket([]) == None; }
    assert Standing(call) == (None, [entry]) && View(call) == [entry];
    assert ApprovedOthers(visit.table, "repo", 0) == {1};
    assert ClaimBlocks(plan, [entry]) by {
      assert "a" in Files(plan) && ClaimOccupies([entry][0].plan, "a") && Blocks(plan, [entry][0]);
    }
    assert !BlanketBlocks(plan, [entry]);
    assert Competent(opinion, [entry]);
  }

  // The tasks a split leaves behind.

  datatype Office = Office(desk: Desk, depth: map<TaskId, nat>)

  function DepthOf(o: Office, t: TaskId): nat {
    if t in o.depth then o.depth[t] else 0
  }

  /** A split queues its remainder as a follow-up one generation down. */
  function OfficeAfter(o: Office, visit: Visit, maxWait: Millis): Office {
    Office(DeskAfter(o.desk, visit, maxWait),
           if Splits(o.desk, visit) then o.depth[visit.child := DepthOf(o, visit.call.request.task) + 1] else o.depth)
  }

  /** Follow-ups are marked as such in every request, and children are new tasks. */
  predicate WellMarked(o: Office, visit: Visit) {
    visit.call.request.followUp == (DepthOf(o, visit.call.request.task) > 0) && visit.child !in o.depth
  }

  predicate AllMarked(o: Office, visits: seq<Visit>, maxWait: Millis)
    decreases |visits|
  {
    visits == [] || (WellMarked(o, visits[0]) && AllMarked(OfficeAfter(o, visits[0], maxWait), visits[1..], maxWait))
  }

  function OfficeEnd(o: Office, visits: seq<Visit>, maxWait: Millis): Office
    decreases |visits|
  {
    if visits == [] then o else OfficeEnd(OfficeAfter(o, visits[0], maxWait), visits[1..], maxWait)
  }

  predicate Shallow(o: Office) {
    forall t :: t in o.depth ==> o.depth[t] <= 1
  }

  /** While no claim stands in the way of a follow-up, splitting goes one generation deep. */
  lemma {:induction false} SplittingHasDepthOne(o: Office, visits: seq<Visit>, maxWait: Millis)
    requires Shallow(o) && AllMarked(o, visits, maxWait) && AllLawful(visits)
    requires forall k :: 0 <= k < |visits| && visits[k].call.request.followUp ==> Unclaimed(visits[k])
    ensures Shallow(OfficeEnd(o, visits, maxWait))
    decreases |visits|
  {
    hide Lawful, Unclaimed, Splits, DeskAfter;
    if visits != [] {
      var rest := visits[1..];
      assert forall k :: 0 <= k < |rest| ==> rest[k] == visits[k + 1];
      if Splits(o.desk, visits[0]) && visits[0].call.request.followUp {
        SplitTakesLeaveOrClaim(o.desk, visits[0]);
      }
      assert Shallow(OfficeAfter(o, visits[0], maxWait));
      SplittingHasDepthOne(OfficeAfter(o, visits[0], maxWait), rest, maxWait);
    }
  }
}
