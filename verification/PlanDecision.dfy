/** When a plan is decided whole, when it is split, and when a claim in its way decides both.

The scoring of conflicts and the choice of what to withhold come in as an `Opinion`, known only by
what they promise; which of its answers is given, and where, is decided here.
*/
module PlanDecision {
  import opened Optional
  import opened Plans
  import opened LeaseStore

  /** An executing plan as it was read. `lease` is missing for what an open branch holds, and
      `shared` is what of the plan another branch would still contend with. */
  datatype Entry = Entry(task: TaskId, lease: Option<LeaseId>, branch: string, plan: Plan, shared: Option<Plan>)

  /** The answer on the whole enriched plan, and the part of it that could be granted, if one could. */
  datatype Opinion = Opinion(enriched: Plan, whole: Admission, split: Option<Submission>)

  /** The decision on the enriched plan, and the part of it that is granted. */
  datatype Verdict = Verdict(enriched: Plan, granted: Plan, admission: Admission)

  /** Another task's claim, rather than its declarations, holds something this plan names. */
  predicate Blocks(p: Plan, e: Entry) {
    e.task != p.task && (IsBlanket(e.plan) || exists f :: f in Files(p) && ClaimOccupies(e.plan, f))
  }

  predicate ClaimBlocks(p: Plan, active: seq<Entry>) {
    exists i :: 0 <= i < |active| && Blocks(p, active[i])
  }

  predicate BlanketBlocks(p: Plan, active: seq<Entry>) {
    exists i :: 0 <= i < |active| && active[i].task != p.task && IsBlanket(active[i].plan)
  }

  function Blockers(p: Plan, active: seq<Entry>): seq<TaskId> {
    if active == [] then []
    else (if Blocks(p, active[0]) then [active[0].task] else []) + Blockers(p, active[1..])
  }

  /** A claim in the way refuses the plan before anything is scored. The bound on splitting is not
      asked where a claim is what refuses. */
  function Rule(o: Opinion, active: seq<Entry>, maySplit: bool): Verdict {
    var claimed := ClaimBlocks(o.enriched, active);
    var refused := Admission(Sequenced, Blockers(o.enriched, active), {});
    if claimed && BlanketBlocks(o.enriched, active) then
      Verdict(o.enriched, o.enriched, refused)
    else
      var whole := if claimed then refused else o.whole;
      if IsApproved(whole) || (!maySplit && !claimed) || o.split.None? then
        Verdict(o.enriched, o.enriched, whole)
      else
        var part := o.split.value;
        Verdict(o.enriched, if IsPartial(part.admission) then part.plan else o.enriched, part.admission)
  }

  ghost predicate CompatibleWithAll(p: Plan, active: seq<Entry>) {
    forall i :: 0 <= i < |active| && active[i].task != p.task ==> Compatible(p, active[i].plan)
  }

  /** What scoring and splitting promise: a whole plan is never partially admitted, a part is a
      narrowing that withholds something, and what either approves is compatible with what it was shown. */
  ghost predicate Competent(o: Opinion, active: seq<Entry>) {
    && !IsPartial(o.whole)
    && (IsApproved(o.whole) && !ClaimBlocks(o.enriched, active) ==> CompatibleWithAll(o.enriched, active))
    && (o.split.Some? ==>
          var part := o.split.value;
          && IsPartial(part.admission) && part.plan.task == o.enriched.task && Narrows(part.plan, o.enriched)
          && CompatibleWithAll(part.plan, active))
  }

  /** Whatever is approved is a narrowing of the plan, compatible with every other task's, none of them
      repository-wide; and it is the plan itself unless something was withheld. */
  lemma ApprovedIsArbitrated(o: Opinion, active: seq<Entry>, maySplit: bool)
    requires Competent(o, active)
    ensures var v := Rule(o, active, maySplit);
            && v.enriched == o.enriched && v.granted.task == o.enriched.task && Narrows(v.granted, v.enriched)
            && (!IsPartial(v.admission) ==> v.granted == v.enriched)
            && (IsApproved(v.admission) ==>
                  && CompatibleWithAll(v.granted, active)
                  && forall i :: 0 <= i < |active| && active[i].task != o.enriched.task ==> !IsBlanket(active[i].plan))
  {
    var v := Rule(o, active, maySplit);
    if IsApproved(v.admission) {
      forall i | 0 <= i < |active| && active[i].task != o.enriched.task ensures !IsBlanket(active[i].plan) {
        assert IsBlanket(active[i].plan) ==> Blocks(o.enriched, active[i]);
      }
    }
  }

  /** The claims in the way, by whose they are. */
  lemma {:induction false} BlockersAreExact(p: Plan, active: seq<Entry>)
    ensures forall t :: t in Blockers(p, active) <==> exists i :: 0 <= i < |active| && Blocks(p, active[i]) && active[i].task == t
    ensures Blockers(p, active) == [] <==> !ClaimBlocks(p, active)
  {
    hide Blocks;
    if active != [] {
      var rest := active[1..];
      BlockersAreExact(p, rest);
      forall t ensures t in Blockers(p, active) <==> exists i :: 0 <= i < |active| && Blocks(p, active[i]) && active[i].task == t {
        if i :| 0 <= i < |active| && Blocks(p, active[i]) && active[i].task == t {
          assert i > 0 ==> Blocks(p, rest[i - 1]);
        }
        if i :| 0 <= i < |rest| && Blocks(p, rest[i]) && rest[i].task == t {
          assert Blocks(p, active[i + 1]);
        }
      }
      if i :| 0 <= i < |active| && Blocks(p, active[i]) {
        assert active[i].task in Blockers(p, active);
      }
      if Blockers(p, active) != [] {
        assert Blockers(p, active)[0] in Blockers(p, active);
      }
    }
  }

  /** The whole decision: split, it is the part that could be granted; behind a claim, it waits for those
      whose claims they are; and otherwise it is what the plan's declarations earned. */
  lemma DecisionIs(o: Opinion, active: seq<Entry>, maySplit: bool)
    requires Competent(o, active)
    ensures var v := Rule(o, active, maySplit);
            if IsPartial(v.admission) then o.split == Some(Submission(v.granted, v.admission))
            else if ClaimBlocks(o.enriched, active) then
              && v.admission.status.Sequenced? && v.granted == o.enriched
              && forall t :: t in v.admission.blockedBy
                   <==> exists i :: 0 <= i < |active| && Blocks(o.enriched, active[i]) && active[i].task == t
            else v.admission == o.whole && v.granted == o.enriched
  {
    hide Blocks;
    BlockersAreExact(o.enriched, active);
    SplitIff(o, active, maySplit);
  }

  /** When a plan is split: where a part could be granted and no claim covers the repository, and the
      refusal it answers is either a claim's, or one the request lets be answered so. */
  lemma SplitIff(o: Opinion, active: seq<Entry>, maySplit: bool)
    requires Competent(o, active)
    ensures IsPartial(Rule(o, active, maySplit).admission)
            <==> && o.split.Some? && !BlanketBlocks(o.enriched, active)
                 && (ClaimBlocks(o.enriched, active) || (maySplit && !IsApproved(o.whole)))
  {
    if i :| 0 <= i < |active| && active[i].task != o.enriched.task && IsBlanket(active[i].plan) {
      assert Blocks(o.enriched, active[i]);
    }
  }
}
