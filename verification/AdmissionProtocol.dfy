/** Plan admission by any number of authorities over one lease table.

Every authority reads the admitted plans, decides, and commits later under the
compare-and-swap of `LeaseStore.Save`. A claim is rewritten the same way, but
from a plan read whenever and with nothing arbitrated. The steps below
interleave freely. The swap compares lease ids, not plan contents, so what a
pending decision looked at is kept here as its `view`.
*/
module AdmissionProtocol {
  import opened Optional
  import opened Plans
  import opened LeaseStore

  type OpId = nat

  datatype Pending =
    /** The admitted plans have been read and nothing is decided yet. */
    | Viewed(lease: LeaseId, ids: set<LeaseId>, view: map<LeaseId, Plan>)
    /** A decision is ready to be written. */
    | Decided(lease: LeaseId, ids: set<LeaseId>, view: map<LeaseId, Plan>, submission: Submission, replace: bool)
    /** A claim is about to be rewritten, on behalf of the `reader` that found it in its way. */
    | Rewriting(lease: LeaseId, ids: set<LeaseId>, plan: Plan, reader: Option<OpId>)

  datatype State = State(leases: Leases, pending: map<OpId, Pending>)

  datatype Step =
    | Mint(id: LeaseId, lease: Lease)
    | End(id: LeaseId)
    | Read(op: OpId, id: LeaseId)
    | AdoptNarrowed(op: OpId, holder: LeaseId)
    | Decide(op: OpId, submission: Submission, replace: bool)
    | ClaimRepository(op: OpId, id: LeaseId, estimate: set<File>)
    | Rewrite(op: OpId, id: LeaseId, plan: Plan, reader: Option<OpId>)
    | Commit(op: OpId)
    | Abandon(op: OpId)

  function ViewOf(leases: Leases, ids: set<LeaseId>): map<LeaseId, Plan>
    requires forall i :: i in ids ==> i in leases && Executes(leases[i])
  {
    map i | i in ids :: PlanOn(leases, i)
  }

  predicate SameBranch(leases: Leases, a: LeaseId, b: LeaseId)
    requires a in leases && b in leases
  {
    leases[a].repository == leases[b].repository && BranchOf(leases[a]) == BranchOf(leases[b])
  }

  /** Two leases whose plans are decided against each other: on one branch, for different tasks. */
  predicate Contend(leases: Leases, a: LeaseId, b: LeaseId)
    requires a in leases && b in leases
  {
    SameBranch(leases, a, b) && leases[a].task != leases[b].task
  }

  /** What an approving answer of the decision procedure promises about what it was shown. */
  ghost predicate ArbitratedAgainst(leases: Leases, p: Pending)
    requires p.Decided? && p.lease in leases && p.view.Keys == p.ids <= leases.Keys
  {
    && (forall i :: i in p.ids ==> !IsBlanket(p.view[i]))
    && (forall i :: i in p.ids && Contend(leases, p.lease, i) ==> Compatible(p.submission.plan, p.view[i]))
    && (IsBlanket(p.submission.plan) ==> p.ids == {})
  }

  /** A rewrite may be prepared of any lease, with any plan: the claim it starts from may have been
      read long before, and the stored plan may be another by now. */
  ghost predicate Enabled(s: State, step: Step) {
    match step
    case Mint(id, lease) =>
      id !in s.leases && lease.active && lease.submission.None?
    case End(id) =>
      id in s.leases
    case Read(op, id) =>
      op !in s.pending && id in s.leases && s.leases[id].active
    case AdoptNarrowed(op, h) =>
      && op in s.pending && s.pending[op].Viewed? && h in s.pending[op].ids
      && h in s.leases && Executes(s.leases[h])
    case Decide(op, submission, replace) =>
      && op in s.pending && s.pending[op].Viewed?
      && s.pending[op].view.Keys == s.pending[op].ids <= s.leases.Keys && s.pending[op].lease in s.leases
      && var p := s.pending[op];
      && (IsApproved(submission.admission) ==>
            ArbitratedAgainst(s.leases, Decided(p.lease, p.ids, p.view, submission, replace)))
      && (!IsApproved(submission.admission) ==> !replace)
    case ClaimRepository(op, id, _) =>
      && op !in s.pending && id in s.leases && s.leases[id].active && s.leases[id].submission.None?
      && forall l :: l in s.leases && l != id && s.leases[l].active
                     ==> s.leases[l].repository != s.leases[id].repository
    case Rewrite(op, id, _, reader) =>
      op !in s.pending && id in s.leases && reader != Some(op)
    case Commit(op) =>
      op in s.pending && !s.pending[op].Viewed?
    case Abandon(op) =>
      op in s.pending
  }

  /** What a pending write would put on its lease. */
  function Written(p: Pending): Submission
    requires !p.Viewed?
  {
    if p.Rewriting? then Submission(p.plan, GRANTED) else p.submission
  }

  function OutcomeOf(s: State, op: OpId): (SaveOutcome, Leases)
    requires op in s.pending && !s.pending[op].Viewed?
  {
    var p := s.pending[op];
    Save(s.leases, p.lease, Written(p), p.ids, p.Rewriting? || p.replace)
  }

  /** The reader goes on with the claim as it was just rewritten. */
  function Told(pending: map<OpId, Pending>, p: Pending): map<OpId, Pending>
    requires p.Rewriting?
  {
    if p.reader.Some? && p.reader.value in pending && pending[p.reader.value].Viewed?
       && p.lease in pending[p.reader.value].ids then
      var q := pending[p.reader.value];
      pending[p.reader.value := Viewed(q.lease, q.ids, q.view[p.lease := p.plan])]
    else
      pending
  }

  ghost function Next(s: State, step: Step): State
    requires Enabled(s, step)
  {
    match step
    case Mint(id, lease) =>
      s.(leases := s.leases[id := lease])
    case End(id) =>
      s.(leases := s.leases[id := s.leases[id].(active := false)])
    case Read(op, id) =>
      var ids := ApprovedOthers(s.leases, s.leases[id].repository, id);
      s.(pending := s.pending[op := Viewed(id, ids, ViewOf(s.leases, ids))])
    case AdoptNarrowed(op, h) =>
      var p := s.pending[op];
      s.(pending := s.pending[op := Viewed(p.lease, p.ids, p.view[h := PlanOn(s.leases, h)])])
    case Decide(op, submission, replace) =>
      var p := s.pending[op];
      s.(pending := s.pending[op := Decided(p.lease, p.ids, p.view, submission, replace)])
    case ClaimRepository(op, id, estimate) =>
      var plan := BlanketPlan(s.leases[id].task, estimate);
      s.(pending := s.pending[op := Decided(id, {}, map[], Submission(plan, GRANTED), false)])
    case Rewrite(op, id, plan, reader) =>
      var ids := ApprovedOthers(s.leases, s.leases[id].repository, id);
      s.(pending := s.pending[op := Rewriting(id, ids, plan, reader)])
    case Commit(op) =>
      var p := s.pending[op];
      var (outcome, leases) := OutcomeOf(s, op);
      State(leases, (if outcome.Saved? && p.Rewriting? then Told(s.pending, p) else s.pending) - {op})
    case Abandon(op) =>
      s.(pending := s.pending - {op})
  }

  /** What is written narrows what it replaces: a writer can see this on the row it replaces. */
  ghost predicate NarrowsStored(s: State, op: OpId)
    requires op in s.pending && !s.pending[op].Viewed?
  {
    var p := s.pending[op];
    p.lease in s.leases && Executes(s.leases[p.lease])
    && Narrows(Written(p).plan, PlanOn(s.leases, p.lease))
  }

  /** No other pending operation has read this lease's plan. */
  predicate Unread(s: State, op: OpId)
    requires op in s.pending
  {
    forall o :: o in s.pending && o != op ==> s.pending[op].lease !in s.pending[o].ids
  }

  /** The hypothesis on a step. A rewrite narrows the plan it replaces; a decision that replaces an
      admitted plan narrows it too, or nobody is deciding on what it replaces. */
  ghost predicate Sound(s: State, step: Step)
    requires Enabled(s, step)
  {
    step.Commit? && OutcomeOf(s, step.op).0.Saved? ==>
      var p := s.pending[step.op];
      NarrowsStored(s, step.op) || (p.Decided? && (!Executes(s.leases[p.lease]) || Unread(s, step.op)))
  }

  /** Any two admitted plans of different tasks on one branch are compatible. */
  ghost predicate Exclusive(leases: Leases) {
    forall a, b :: a in leases && b in leases && a != b
      && Executes(leases[a]) && Executes(leases[b]) && Contend(leases, a, b)
      ==> Compatible(PlanOn(leases, a), PlanOn(leases, b))
  }

  /** A repository-wide plan is the only admitted plan of its repository. */
  ghost predicate BlanketAlone(leases: Leases) {
    forall a, b :: a in leases && b in leases && a != b
      && Executes(leases[a]) && IsBlanket(PlanOn(leases, a))
      && leases[a].repository == leases[b].repository
      ==> !Executes(leases[b])
  }

  /** A pending decision's view still covers the table, or the lease it saw has ended. */
  ghost predicate ViewCovers(leases: Leases, p: Pending)
    requires !p.Rewriting?
  {
    && p.view.Keys == p.ids
    && (forall i :: i in p.ids && i in leases && leases[i].active
          ==> Executes(leases[i]) && Narrows(PlanOn(leases, i), p.view[i]))
  }

  ghost predicate PendingOk(leases: Leases, p: Pending) {
    && p.lease in leases && p.ids <= leases.Keys
    && (!p.Rewriting? ==> ViewCovers(leases, p))
    && (p.Decided? && IsApproved(p.submission.admission) ==> ArbitratedAgainst(leases, p))
    && (p.Decided? && !IsApproved(p.submission.admission) ==> !p.replace)
  }

  ghost predicate Inv(s: State) {
    && Exclusive(s.leases)
    && BlanketAlone(s.leases)
    && (forall o :: o in s.pending ==> PendingOk(s.leases, s.pending[o]))
  }

  const EMPTY := State(map[], map[])

  lemma NarrowsReflexive(p: Plan)
    ensures Narrows(p, p)
  {
  }

  /** Steps that leave every admitted plan where it was keep each pending decision sound. */
  lemma PendingKept(leases: Leases, leases': Leases, p: Pending)
    requires PendingOk(leases, p)
    requires leases.Keys <= leases'.Keys
    requires forall l :: l in leases ==>
      && leases'[l].repository == leases[l].repository && leases'[l].branch == leases[l].branch
      && leases'[l].task == leases[l].task
      && (leases'[l].active ==> leases'[l] == leases[l])
    ensures PendingOk(leases', p)
  {
    hide Compatible, Narrows;
  }

  lemma MintKeepsInv(s: State, id: LeaseId, lease: Lease)
    requires Inv(s) && Enabled(s, Mint(id, lease))
    ensures Inv(Next(s, Mint(id, lease)))
  {
    hide Compatible, PendingOk;
    var s' := Next(s, Mint(id, lease));
    forall o | o in s'.pending ensures PendingOk(s'.leases, s'.pending[o]) {
      PendingKept(s.leases, s'.leases, s.pending[o]);
    }
  }

  lemma EndKeepsInv(s: State, id: LeaseId)
    requires Inv(s) && Enabled(s, End(id))
    ensures Inv(Next(s, End(id)))
  {
    hide Compatible, PendingOk;
    var s' := Next(s, End(id));
    forall o | o in s'.pending ensures PendingOk(s'.leases, s'.pending[o]) {
      PendingKept(s.leases, s'.leases, s.pending[o]);
    }
  }

  /** The steps that touch only the pending decisions. */
  lemma PrepareKeepsInv(s: State, step: Step)
    requires Inv(s) && Enabled(s, step)
    requires !step.Mint? && !step.End? && !step.Commit?
    ensures Inv(Next(s, step))
  {
    hide Compatible, Exclusive, BlanketAlone;
  }

  /** A decision that is saved and approved is compatible with every admitted plan it contends with. */
  lemma SavedIsCompatible(s: State, op: OpId, b: LeaseId)
    requires Inv(s) && Enabled(s, Commit(op)) && OutcomeOf(s, op).0.Saved?
    requires s.pending[op].Decided? && IsApproved(s.pending[op].submission.admission)
    requires b in s.leases && b != s.pending[op].lease && Executes(s.leases[b])
    requires s.leases[b].repository == s.leases[s.pending[op].lease].repository
    ensures !IsBlanket(s.pending[op].submission.plan) && !IsBlanket(PlanOn(s.leases, b))
    ensures Contend(s.leases, s.pending[op].lease, b) ==>
      && Compatible(s.pending[op].submission.plan, PlanOn(s.leases, b))
      && Compatible(PlanOn(s.leases, b), s.pending[op].submission.plan)
  {
    var p := s.pending[op];
    assert PendingOk(s.leases, p);
    assert b in ApprovedOthers(s.leases, s.leases[p.lease].repository, p.lease);
    assert b in p.ids;
    if Contend(s.leases, p.lease, b) {
      NarrowsReflexive(p.submission.plan);
      CompatibleUnderNarrowing(p.submission.plan, p.view[b], p.submission.plan, PlanOn(s.leases, b));
    }
  }

  /** So is a rewrite that narrows what it replaces, with nothing arbitrated. */
  lemma NarrowingIsCompatible(s: State, op: OpId, b: LeaseId)
    requires Inv(s) && Enabled(s, Commit(op)) && NarrowsStored(s, op)
    requires b in s.leases && b != s.pending[op].lease && Executes(s.leases[b])
    requires s.leases[b].repository == s.leases[s.pending[op].lease].repository
    ensures !IsBlanket(Written(s.pending[op]).plan) && !IsBlanket(PlanOn(s.leases, b))
    ensures Contend(s.leases, s.pending[op].lease, b) ==>
      && Compatible(Written(s.pending[op]).plan, PlanOn(s.leases, b))
      && Compatible(PlanOn(s.leases, b), Written(s.pending[op]).plan)
  {
    var p := s.pending[op];
    if Contend(s.leases, p.lease, b) {
      NarrowsReflexive(PlanOn(s.leases, b));
      CompatibleUnderNarrowing(PlanOn(s.leases, p.lease), PlanOn(s.leases, b), Written(p).plan, PlanOn(s.leases, b));
    }
  }

  /** Writing one admitted plan leaves an exclusive table exclusive exactly when the plan is compatible
      with every admitted plan it contends with. */
  lemma OneWrite(leases: Leases, a: LeaseId, x: Submission)
    requires Exclusive(leases) && a in leases && leases[a].active && IsApproved(x.admission)
    ensures Exclusive(WithPlan(leases, a, x))
            <==> forall b :: b in leases && b != a && Executes(leases[b]) && Contend(leases, a, b)
                             ==> Compatible(x.plan, PlanOn(leases, b))
  {
    hide Compatible;
    var end := WithPlan(leases, a, x);
    assert PlanOn(end, a) == x.plan;
    forall b | b in leases && b != a && Executes(leases[b]) && Contend(leases, a, b)
      ensures Contend(end, a, b) && Contend(end, b, a) && PlanOn(end, b) == PlanOn(leases, b)
      ensures Compatible(x.plan, PlanOn(leases, b)) <==> Compatible(PlanOn(leases, b), x.plan)
    {
      CompatibleSymmetric(x.plan, PlanOn(leases, b));
    }
    if forall b :: b in leases && b != a && Executes(leases[b]) && Contend(leases, a, b)
                   ==> Compatible(x.plan, PlanOn(leases, b)) {
      forall c, d | c in end && d in end && c != d && Executes(end[c]) && Executes(end[d]) && Contend(end, c, d)
        ensures Compatible(PlanOn(end, c), PlanOn(end, d))
      {
        if c != a && d != a {
          assert Contend(leases, c, d);
        } else if c == a {
          assert Contend(leases, a, d);
        } else {
          assert Contend(leases, a, c);
        }
      }
    }
  }

  /** What a rewrite does to the table, whatever it started from: it is saved over whichever plan is
      stored, and keeps the table exclusive exactly when it is compatible with the admitted plans it
      contends with. */
  lemma RewriteKeepsExclusiveIff(s: State, op: OpId)
    requires Inv(s) && Enabled(s, Commit(op)) && s.pending[op].Rewriting? && OutcomeOf(s, op).0.Saved?
    ensures var p := s.pending[op];
            && Next(s, Commit(op)).leases == WithPlan(s.leases, p.lease, Written(p))
            && (Exclusive(Next(s, Commit(op)).leases)
                <==> forall b :: b in s.leases && b != p.lease && Executes(s.leases[b]) && Contend(s.leases, p.lease, b)
                                 ==> Compatible(p.plan, PlanOn(s.leases, b)))
  {
    OneWrite(s.leases, s.pending[op].lease, Written(s.pending[op]));
  }

  /** What a writer can look for: where the claim it read is still the one stored, its rewrite narrows
      what is stored, and so keeps the table, exactly when it names nothing that was given back. */
  lemma StoredClaimIsNarrowedIff(s: State, op: OpId, claim: Plan)
    requires Enabled(s, Commit(op)) && s.pending[op].Rewriting? && !IsBlanket(s.pending[op].plan)
    requires s.pending[op].lease in s.leases && Executes(s.leases[s.pending[op].lease])
    requires PlanOn(s.leases, s.pending[op].lease) == claim && IsBlanket(claim)
    ensures NarrowsStored(s, op) <==> Files(s.pending[op].plan) !! claim.claim.released
    ensures Inv(s) && OutcomeOf(s, op).0.Saved? && Files(s.pending[op].plan) !! claim.claim.released
            ==> Inv(Next(s, Commit(op)))
  {
    NarrowsClaimIff(s.pending[op].plan, claim);
    hide Inv, Narrows, Next;
    if Inv(s) && OutcomeOf(s, op).0.Saved? && Files(s.pending[op].plan) !! claim.claim.released {
      CommitKeepsInv(s, op);
    }
  }

  lemma CommitKeepsInv(s: State, op: OpId)
    requires Inv(s) && Enabled(s, Commit(op)) && Sound(s, Commit(op))
    ensures Inv(Next(s, Commit(op)))
  {
    hide Exclusive, BlanketAlone, PendingOk, NarrowsStored, Unread;
    var s' := Next(s, Commit(op));
    if OutcomeOf(s, op).0.Saved? {
      CommitKeepsTable(s, op);
      forall o | o in s'.pending ensures PendingOk(s'.leases, s'.pending[o]) {
        CommitKeepsPending(s, op, o);
        if s'.pending[o] != s.pending[o] {
          ReaderIsTold(s, op, o);
        }
      }
    }
  }

  lemma CommitKeepsTable(s: State, op: OpId)
    requires Inv(s) && Enabled(s, Commit(op)) && OutcomeOf(s, op).0.Saved?
    requires s.pending[op].Rewriting? ==> NarrowsStored(s, op)
    ensures Exclusive(Next(s, Commit(op)).leases)
    ensures BlanketAlone(Next(s, Commit(op)).leases)
  {
    hide Compatible, Narrows, PendingOk;
    var p := s.pending[op];
    if IsApproved(Written(p).admission) {
      forall b | b in s.leases && b != p.lease && Executes(s.leases[b])
                 && s.leases[b].repository == s.leases[p.lease].repository
        ensures !IsBlanket(Written(p).plan) && !IsBlanket(PlanOn(s.leases, b))
        ensures Contend(s.leases, p.lease, b) ==> Compatible(Written(p).plan, PlanOn(s.leases, b))
      {
        if p.Rewriting? {
          NarrowingIsCompatible(s, op, b);
        } else {
          SavedIsCompatible(s, op, b);
        }
      }
      OneWrite(s.leases, p.lease, Written(p));
    }
  }

  lemma CommitKeepsPending(s: State, op: OpId, o: OpId)
    requires Inv(s) && Enabled(s, Commit(op)) && OutcomeOf(s, op).0.Saved? && Sound(s, Commit(op))
    requires o in s.pending && o != op
    ensures PendingOk(Next(s, Commit(op)).leases, s.pending[o])
  {
    hide Compatible, Exclusive, BlanketAlone;
    var p, q := s.pending[op], s.pending[o];
    assert PendingOk(s.leases, p) && PendingOk(s.leases, q);
    if p.lease in q.ids && !q.Rewriting? {
      assert Executes(s.leases[p.lease]) && IsApproved(Written(p).admission);
      NarrowsTransitive(Written(p).plan, PlanOn(s.leases, p.lease), q.view[p.lease]);
    }
    hide Narrows;
  }

  /** A reader that is told of the rewrite it asked for sees what is now stored. */
  lemma ReaderIsTold(s: State, op: OpId, o: OpId)
    requires Inv(s) && Enabled(s, Commit(op)) && OutcomeOf(s, op).0.Saved? && Sound(s, Commit(op))
    requires o in Next(s, Commit(op)).pending && Next(s, Commit(op)).pending[o] != s.pending[o]
    ensures PendingOk(Next(s, Commit(op)).leases, Next(s, Commit(op)).pending[o])
  {
    hide Compatible, Exclusive, BlanketAlone, ArbitratedAgainst;
    CommitKeepsPending(s, op, o);
    NarrowsReflexive(s.pending[op].plan);
    hide Narrows;
  }

  lemma StepKeepsInv(s: State, step: Step)
    requires Inv(s) && Enabled(s, step) && Sound(s, step)
    ensures Inv(Next(s, step))
  {
    hide Inv, Next;
    match step
    case Mint(id, lease) => MintKeepsInv(s, id, lease);
    case End(id) => EndKeepsInv(s, id);
    case Commit(op) => CommitKeepsInv(s, op);
    case _ => PrepareKeepsInv(s, step);
  }

  /** A run: each step enabled where it is taken. */
  ghost predicate IsRun(s: State, steps: seq<Step>)
    decreases |steps|
  {
    steps == [] || (Enabled(s, steps[0]) && IsRun(Next(s, steps[0]), steps[1..]))
  }

  ghost predicate AllSound(s: State, steps: seq<Step>)
    requires IsRun(s, steps)
    decreases |steps|
  {
    steps == [] || (Sound(s, steps[0]) && AllSound(Next(s, steps[0]), steps[1..]))
  }

  ghost function After(s: State, steps: seq<Step>): State
    requires IsRun(s, steps)
    decreases |steps|
  {
    if steps == [] then s else After(Next(s, steps[0]), steps[1..])
  }

  lemma {:induction false} RunKeepsInv(s: State, steps: seq<Step>)
    requires Inv(s) && IsRun(s, steps) && AllSound(s, steps)
    ensures Inv(After(s, steps))
    decreases |steps|
  {
    hide Inv, Next, Enabled, Sound;
    if steps != [] {
      StepKeepsInv(s, steps[0]);
      RunKeepsInv(Next(s, steps[0]), steps[1..]);
    }
  }

  /** Exclusivity over every interleaving. */
  lemma AdmittedPlansAreExclusive(steps: seq<Step>)
    requires IsRun(EMPTY, steps) && AllSound(EMPTY, steps)
    ensures Exclusive(After(EMPTY, steps).leases)
    ensures BlanketAlone(After(EMPTY, steps).leases)
  {
    RunKeepsInv(EMPTY, steps);
  }

  /** No step replaces an admitted contract by one that is not: it stands until its lease ends. */
  lemma AdmittedStaysAdmitted(s: State, step: Step, l: LeaseId)
    requires Inv(s) && Enabled(s, step)
    requires l in s.leases && Executes(s.leases[l])
    ensures l in Next(s, step).leases
    ensures Next(s, step).leases[l].active ==> Executes(Next(s, step).leases[l])
  {
    if step.Commit? {
      assert PendingOk(s.leases, s.pending[step.op]);
    }
  }

  /** A lease newly admitted behind a pending write's back makes that write stale. */
  lemma ArrivalsAreNoticed(s: State, op: OpId, l: LeaseId)
    requires Inv(s) && Enabled(s, Commit(op))
    requires l in s.leases && Executes(s.leases[l]) && l !in s.pending[op].ids
    requires l != s.pending[op].lease
    requires s.leases[l].repository == s.leases[s.pending[op].lease].repository
    ensures !OutcomeOf(s, op).0.Saved?
    ensures Next(s, Commit(op)).leases == s.leases
  {
    assert PendingOk(s.leases, s.pending[op]);
    assert l in ApprovedOthers(s.leases, s.leases[s.pending[op].lease].repository, s.pending[op].lease);
  }

  function WithPlan(leases: Leases, l: LeaseId, submission: Submission): Leases
    requires l in leases
  {
    leases[l := leases[l].(submission := Some(submission))]
  }

  /** A pending rewrite or revision, and a pending decision that looked at the lease it replaces. */
  ghost predicate RewriteRacesReader(s: State, rewrite: OpId, reader: OpId) {
    && rewrite != reader
    && Enabled(s, Commit(rewrite)) && IsApproved(Written(s.pending[rewrite]).admission) && OutcomeOf(s, rewrite).0.Saved?
    && Enabled(s, Commit(reader)) && s.pending[reader].Decided? && OutcomeOf(s, reader).0.Saved?
    && s.pending[rewrite].lease in s.pending[reader].ids
    && IsApproved(s.pending[reader].submission.admission)
    && s.pending[rewrite].lease in s.leases && s.pending[reader].lease in s.leases
    && Contend(s.leases, s.pending[rewrite].lease, s.pending[reader].lease)
  }

  /** The swap compares ids only: rewriting an observed plan leaves a later save as it was. */
  lemma SaveAfterRewrite(leases: Leases, a: LeaseId, x: Submission, b: LeaseId, y: Submission,
                         ids: set<LeaseId>, replace: bool)
    requires Save(leases, b, y, ids, replace).0.Saved?
    requires a in ids && IsApproved(x.admission)
    ensures a in leases && a != b
    ensures Save(WithPlan(leases, a, x), b, y, ids, replace)
            == (Saved, WithPlan(WithPlan(leases, a, x), b, y))
  {
    var mid := WithPlan(leases, a, x);
    assert ApprovedOthers(mid, leases[b].repository, b) == ApprovedOthers(leases, leases[b].repository, b);
  }

  /** Both go through, one after the other. */
  lemma BothAreSaved(s: State, rewrite: OpId, reader: OpId)
    requires RewriteRacesReader(s, rewrite, reader)
    ensures var w, r := s.pending[rewrite], s.pending[reader];
            && Enabled(Next(s, Commit(rewrite)), Commit(reader))
            && Next(Next(s, Commit(rewrite)), Commit(reader)).leases
               == WithPlan(WithPlan(s.leases, w.lease, Written(w)), r.lease, r.submission)
  {
    hide Save, Executes;
    var w, r := s.pending[rewrite], s.pending[reader];
    SaveWrites(s.leases, w.lease, Written(w), w.ids, w.Rewriting? || w.replace);
    SaveAfterRewrite(s.leases, w.lease, Written(w), r.lease, r.submission, r.ids, r.replace);
  }

  lemma SaveWrites(leases: Leases, id: LeaseId, x: Submission, ids: set<LeaseId>, replace: bool)
    requires Save(leases, id, x, ids, replace).0.Saved?
    ensures id in leases && leases[id].active && Save(leases, id, x, ids, replace).1 == WithPlan(leases, id, x)
  {
  }

  /** Writing two admitted plans onto a table that the first leaves exclusive keeps it so exactly when
      they are compatible with each other, given that the second is compatible with the rest. */
  lemma TwoWrites(leases: Leases, a: LeaseId, x: Submission, b: LeaseId, y: Submission)
    requires a in leases && b in leases && a != b && Contend(leases, a, b)
    requires leases[a].active && leases[b].active && IsApproved(x.admission) && IsApproved(y.admission)
    requires Exclusive(WithPlan(leases, a, x))
    requires forall c :: c in leases && c != a && c != b && Executes(leases[c]) && Contend(leases, b, c)
               ==> Compatible(y.plan, PlanOn(leases, c))
    ensures Exclusive(WithPlan(WithPlan(leases, a, x), b, y)) <==> Compatible(x.plan, y.plan)
  {
    hide Compatible, Exclusive;
    var mid := WithPlan(leases, a, x);
    OneWrite(mid, b, y);
    CompatibleSymmetric(x.plan, y.plan);
    assert PlanOn(mid, a) == x.plan && Contend(mid, b, a) && Executes(mid[a]);
    assert forall c :: c in leases && c != a ==> mid[c] == leases[c];
  }

  /** Once a decision is pending, a rewrite or a revision of a lease it looked at and then the decision
      itself both commit. Where the rewrite alone is harmless, they are exclusive exactly when the two plans
      are compatible: nothing in the swap decides it. */
  lemma RewriteBehindADecision(s: State, rewrite: OpId, reader: OpId)
    requires Inv(s) && RewriteRacesReader(s, rewrite, reader)
    requires Exclusive(Next(s, Commit(rewrite)).leases)
    ensures Enabled(Next(s, Commit(rewrite)), Commit(reader))
    ensures var s' := Next(Next(s, Commit(rewrite)), Commit(reader));
            Exclusive(s'.leases) <==> Compatible(Written(s.pending[rewrite]).plan, s.pending[reader].submission.plan)
  {
    hide Compatible, Exclusive, Inv;
    var w, r := s.pending[rewrite], s.pending[reader];
    BothAreSaved(s, rewrite, reader);
    SaveWrites(s.leases, w.lease, Written(w), w.ids, w.Rewriting? || w.replace);
    SaveWrites(s.leases, r.lease, r.submission, r.ids, r.replace);
    forall c | c in s.leases && c != w.lease && c != r.lease && Executes(s.leases[c]) && Contend(s.leases, r.lease, c)
      ensures Compatible(r.submission.plan, PlanOn(s.leases, c))
    {
      SavedIsCompatible(s, reader, c);
    }
    TwoWrites(s.leases, w.lease, Written(w), r.lease, r.submission);
  }

  lemma CompatibleSymmetric(p: Plan, q: Plan)
    ensures Compatible(p, q) <==> Compatible(q, p)
  {
  }
}
