/** One authority's admission of a plan: read, maybe narrow, decide, write, record, answer.

The reading of the table and the answer of the decision procedure come in as
values, because the table may have moved by the time anything is written. Conflict
scoring is known by what it promises, `Lawful`.
*/
module PlanAuthority {
  import opened Optional
  import opened Plans
  import opened LeaseStore
  import opened AdmissionTrail
  import opened HolderNarrowing
  import opened PlanDecision

  type Millis = int

  datatype Request = Request(task: TaskId, plan: Plan, revising: bool, maySplit: bool, followUp: bool)

  datatype Reading = Reading(live: bool, here: string, active: seq<Entry>, ids: set<LeaseId>)

  datatype Answer =
    | Admitted(plan: Plan, withheld: set<File>)
    | Deferred(blockedBy: seq<TaskId>)
    /** The view was stale: the whole admission is taken again. */
    | Again

  datatype Desk = Desk(leases: Leases, trails: map<TaskId, Trail>, since: map<TaskId, Millis>)

  /** One call: who asks, what was read, what narrowing and scoring brought, and when. */
  datatype Call = Call(
    lease: Option<LeaseId>,
    request: Request,
    reading: Reading,
    narrowed: Option<(Plan, Option<Plan>)>,
    opinion: Opinion,
    now: Millis)

  function TrailOf(desk: Desk, t: TaskId): Trail {
    if t in desk.trails then desk.trails[t] else []
  }

  function WithEvent(desk: Desk, t: TaskId, e: Event): Desk {
    desk.(trails := desk.trails[t := Record(TrailOf(desk, t), e)])
  }

  function NotWaiting(desk: Desk, t: TaskId): Desk {
    desk.(since := desk.since - {t})
  }

  /** How long a task has waited; the first refusal starts the clock. */
  function Waited(desk: Desk, t: TaskId, approved: bool, now: Millis): (Millis, Desk) {
    if approved then (0, desk)
    else if t in desk.since then (now - desk.since[t], desk)
    else (0, desk.(since := desk.since[t := now]))
  }

  function MayForce(r: Request, split: bool, waited: Millis, maxWait: Millis): bool {
    !r.revising && !split && waited >= maxWait
  }

  function AsNat(waited: Millis): nat {
    if waited < 0 then 0 else waited
  }

  function PublishPlan(desk: Desk, l: LeaseId, r: Request, ids: set<LeaseId>): (Answer, Desk) {
    var (outcome, leases) := Save(desk.leases, l, Submission(r.plan, GRANTED), ids, r.revising);
    if outcome.Stale? then
      (Again, desk)
    else
      var told := WithEvent(desk.(leases := leases), r.task, Event(Approved, [], false, {}, false, 0));
      (Admitted(r.plan, {}), NotWaiting(told, r.task))
  }

  function BehindBlanket(desk: Desk, r: Request, holder: TaskId, split: bool, now: Millis, maxWait: Millis)
    : (Answer, Desk)
  {
    var (waited, ticking) := Waited(desk, r.task, false, now);
    var forced := MayForce(r, split, waited, maxWait);
    var told := WithEvent(ticking, r.task,
                          Event(Sequenced, [holder], false, {}, forced, if forced then AsNat(waited) else 0));
    if forced then (Admitted(r.plan, {}), NotWaiting(told, r.task)) else (Deferred([holder]), told)
  }

  /** What happens once a verdict is in. */
  function Settle(desk: Desk, l: LeaseId, r: Request, ids: set<LeaseId>, v: Verdict, split: bool,
                  now: Millis, maxWait: Millis): (Answer, Desk)
  {
    var write := !(r.revising && !IsApproved(v.admission));
    var (outcome, leases) :=
      if write then Save(desk.leases, l, Submission(v.granted, v.admission), ids, r.revising) else (Saved, desk.leases);
    if outcome.Stale? then
      (Again, desk)
    else if outcome.LeaseLost? then
      (Admitted(r.plan, {}), desk)
    else
      Conclude(desk.(leases := leases), r, v.granted,
               if outcome.AlreadyAdmitted? then outcome.stored.admission else v.admission, split, now, maxWait)
  }

  function AdmissionEvent(a: Admission, granted: Plan, forced: bool, waited: Millis): Event {
    Event(a.status, a.blockedBy, IsPartial(a), if IsPartial(a) then Files(granted) else {},
          forced, if forced then AsNat(waited) else 0)
  }

  /** The write is behind: note the answer, and give it. */
  function Conclude(desk: Desk, r: Request, granted: Plan, admission: Admission, split: bool,
                    now: Millis, maxWait: Millis): (Answer, Desk)
  {
    var approved := IsApproved(admission);
    var (waited, ticking) := Waited(desk, r.task, approved, now);
    var forced := MayForce(r, split, waited, maxWait) && !approved;
    var told := WithEvent(ticking, r.task, AdmissionEvent(admission, granted, forced, waited));
    if approved then
      (Admitted(granted, if IsPartial(admission) then admission.withheld else {}), NotWaiting(told, r.task))
    else if forced then
      (Admitted(r.plan, {}), NotWaiting(told, r.task))
    else
      (Deferred(admission.blockedBy), told)
  }

  /** The first executing plan that claims the whole repository. */
  function FirstBlanket(active: seq<Entry>): Option<Entry> {
    if active == [] then None
    else if IsBlanket(active[0].plan) then Some(active[0])
    else FirstBlanket(active[1..])
  }

  /** The reading with one holder's narrowed plan in place of its claim. */
  function AfterNarrowing(active: seq<Entry>, holder: TaskId, narrowed: (Plan, Option<Plan>)): (r: seq<Entry>)
    ensures |r| == |active|
    ensures forall i :: 0 <= i < |r| ==>
      r[i] == if active[i].task == holder then active[i].(plan := narrowed.0, shared := narrowed.1) else active[i]
  {
    seq(|active|, i requires 0 <= i < |active| =>
      if active[i].task == holder then active[i].(plan := narrowed.0, shared := narrowed.1) else active[i])
  }

  /** The active set as one branch sees it: its own whole, another branch's interface only. */
  function NarrowToBranch(active: seq<Entry>, here: string): seq<Entry> {
    if active == [] then []
    else (if active[0].branch == here then [active[0]]
          else if active[0].shared.Some? then [active[0].(plan := active[0].shared.value)] else [])
         + NarrowToBranch(active[1..], here)
  }

  /** What the admission is decided against, or the holder it is refused behind. */
  function Standing(c: Call): (Option<Entry>, seq<Entry>) {
    var active := c.reading.active;
    var blanket := FirstBlanket(active);
    if blanket.Some? && Files(blanket.value.plan) != {} && c.narrowed.Some? then
      (None, AfterNarrowing(active, blanket.value.task, c.narrowed.value))
    else
      (blanket, active)
  }

  /** What of the reading a decision is made against. */
  function View(c: Call): seq<Entry> {
    NarrowToBranch(Standing(c).1, c.reading.here)
  }

  /** Whether the request itself allows its plan to be split. */
  function SplitAllowed(desk: Desk, r: Request): bool {
    r.maySplit && !r.followUp && !WasPartial(TrailOf(desk, r.task))
  }

  function VerdictOn(desk: Desk, c: Call): Verdict {
    Rule(c.opinion, View(c), SplitAllowed(desk, c.request))
  }

  function Admit(desk: Desk, c: Call, maxWait: Millis): (Answer, Desk) {
    if c.lease.None? || !c.reading.live then
      (Admitted(c.request.plan, {}), desk)
    else if c.reading.active == [] then
      PublishPlan(desk, c.lease.value, c.request, c.reading.ids)
    else
      var split := WasPartial(TrailOf(desk, c.request.task));
      var (blanket, active) := Standing(c);
      if blanket.Some? then
        BehindBlanket(desk, c.request, blanket.value.task, split, c.now, maxWait)
      else if View(c) == [] then
        PublishPlan(desk, c.lease.value, c.request, c.reading.ids)
      else
        Settle(desk, c.lease.value, c.request, c.reading.ids, VerdictOn(desk, c), split, c.now, maxWait)
  }

  /** What enriching and scoring promise of an answer. */
  ghost predicate Lawful(c: Call) {
    && c.opinion.enriched.task == c.request.task
    && (IsBlanket(c.opinion.enriched) ==> IsBlanket(c.request.plan))
    && Competent(c.opinion, View(c))
  }

  /** The lease holds exactly this plan, admitted. */
  predicate Holds(leases: Leases, l: LeaseId, p: Plan) {
    l in leases && Executes(leases[l]) && PlanOn(leases, l) == p
  }

  predicate Live(desk: Desk, c: Call) {
    c.lease.Some? && c.reading.live && c.lease.value in desk.leases && desk.leases[c.lease.value].active
  }

  /** The task has waited long enough to be let through over a refusal. */
  predicate Overdue(desk: Desk, c: Call, maxWait: Millis) {
    && !c.request.revising && !WasPartial(TrailOf(desk, c.request.task))
    && Waited(desk, c.request.task, false, c.now).0 >= maxWait
  }

  /** A request that does not revise, on a lease that already holds an admitted plan. */
  predicate Resubmits(desk: Desk, c: Call) {
    Live(desk, c) && Executes(desk.leases[c.lease.value]) && !c.request.revising
  }

  /** The call is refused: a claim stands, or the plan is not approved and no earlier one was. */
  predicate Refused(desk: Desk, c: Call) {
    Attempt(desk, c).None? || (!IsApproved(Attempt(desk, c).value.admission) && !Resubmits(desk, c))
  }

  /** The newest entry of the task's trail says that it was admitted only for having waited. */
  predicate NotedAsForced(desk: Desk, t: TaskId) {
    var trail := TrailOf(desk, t);
    trail != [] && trail[|trail| - 1].admittedAfterWait
  }

  predicate IsLive(leases: Leases, l: LeaseId) {
    l in leases && leases[l].active
  }

  /** What an answer that admits says of the lease. Over a refusal it is the plan asked for, the trail
      says so, and no plan of this call is admitted; otherwise the lease holds exactly the returned plan,
      unless one admitted earlier stands and is another. */
  predicate Honest(desk: Desk, l: LeaseId, r: Request, refused: bool, a: Answer, d: Desk)
    requires l in desk.leases
  {
    var standing := Executes(desk.leases[l]) && !r.revising;
    a.Admitted? ==>
      && l in d.leases && (NotedAsForced(d, r.task) <==> refused)
      && (refused ==> a == Admitted(r.plan, {}) && (Executes(d.leases[l]) ==> d.leases == desk.leases))
      && (!refused ==>
            && (standing ==> d.leases == desk.leases)
            && (Holds(d.leases, l, a.plan) <==> !standing || PlanOn(desk.leases, l) == a.plan))
  }

  lemma NotedNow(desk: Desk, t: TaskId, e: Event)
    ensures NotedAsForced(WithEvent(desk, t, e), t) <==> e.admittedAfterWait
    ensures NotedAsForced(NotWaiting(WithEvent(desk, t, e), t), t) <==> e.admittedAfterWait
  {
  }

  lemma PublishIsHonest(desk: Desk, l: LeaseId, r: Request, ids: set<LeaseId>)
    requires IsLive(desk.leases, l)
    ensures var (a, d) := PublishPlan(desk, l, r, ids);
            Honest(desk, l, r, false, a, d)
  {
    var leases := Save(desk.leases, l, Submission(r.plan, GRANTED), ids, r.revising).1;
    NotedNow(desk.(leases := leases), r.task, Event(Approved, [], false, {}, false, 0));
    hide NotedAsForced, Record, TrailOf;
  }

  lemma BlanketIsHonest(desk: Desk, l: LeaseId, r: Request, holder: TaskId, split: bool, now: Millis, maxWait: Millis)
    requires IsLive(desk.leases, l)
    ensures var (a, d) := BehindBlanket(desk, r, holder, split, now, maxWait);
            Honest(desk, l, r, true, a, d)
  {
    var (waited, ticking) := Waited(desk, r.task, false, now);
    var forced := MayForce(r, split, waited, maxWait);
    NotedNow(ticking, r.task, Event(Sequenced, [holder], false, {}, forced, if forced then AsNat(waited) else 0));
    hide NotedAsForced, Record, TrailOf;
  }

  lemma SettleIsHonest(desk: Desk, l: LeaseId, r: Request, ids: set<LeaseId>, v: Verdict, split: bool,
                       now: Millis, maxWait: Millis)
    requires IsLive(desk.leases, l)
    ensures var (a, d) := Settle(desk, l, r, ids, v, split, now, maxWait);
            Honest(desk, l, r, !IsApproved(v.admission) && !(Executes(desk.leases[l]) && !r.revising), a, d)
  {
    var write := !(r.revising && !IsApproved(v.admission));
    var (outcome, leases) :=
      if write then Save(desk.leases, l, Submission(v.granted, v.admission), ids, r.revising) else (Saved, desk.leases);
    var a := if outcome.AlreadyAdmitted? then outcome.stored.admission else v.admission;
    var (waited, ticking) := Waited(desk.(leases := leases), r.task, IsApproved(a), now);
    var forced := MayForce(r, split, waited, maxWait) && !IsApproved(a);
    NotedNow(ticking, r.task, AdmissionEvent(a, v.granted, forced, waited));
    hide NotedAsForced, Record, TrailOf;
  }

  /** The submission a call tries to write, if any. */
  function Attempt(desk: Desk, c: Call): Option<Submission> {
    if c.lease.None? || !c.reading.live then None
    else if c.reading.active == [] then Some(Submission(c.request.plan, GRANTED))
    else if Standing(c).0.Some? then None
    else if View(c) == [] then Some(Submission(c.request.plan, GRANTED))
    else
      var v := VerdictOn(desk, c);
      if c.request.revising && !IsApproved(v.admission) then None else Some(Submission(v.granted, v.admission))
  }

  function TableAfter(desk: Desk, c: Call): Leases {
    if Attempt(desk, c).None? then desk.leases
    else Save(desk.leases, c.lease.value, Attempt(desk, c).value, c.reading.ids, c.request.revising).1
  }

  lemma SettleReturnsGrant(desk: Desk, l: LeaseId, r: Request, ids: set<LeaseId>, v: Verdict, split: bool,
                           now: Millis, maxWait: Millis)
    requires IsLive(desk.leases, l) && Settle(desk, l, r, ids, v, split, now, maxWait).0.Admitted?
    ensures !(r.revising && !IsApproved(v.admission))
    ensures IsApproved(v.admission) || (Executes(desk.leases[l]) && !r.revising) ==>
      Settle(desk, l, r, ids, v, split, now, maxWait).0.plan == v.granted
    ensures !IsApproved(v.admission) && !(Executes(desk.leases[l]) && !r.revising) ==>
      !split && Waited(desk, r.task, false, now).0 >= maxWait
  {
    hide Record, TrailOf;
  }

  /** An admission on a live lease is honest. A call that was refused admits only an overdue request,
      with the plan it asked for; the trail says so, exactly then, and no plan of the call is admitted.
      Otherwise the returned plan is the one the call tried to write, and the lease holds it exactly
      unless a plan admitted earlier stood and was another; then nothing has changed. */
  lemma AdmittedIsHonest(desk: Desk, c: Call, maxWait: Millis)
    requires Live(desk, c) && Admit(desk, c, maxWait).0.Admitted?
    ensures var (a, d) := Admit(desk, c, maxWait);
            && c.lease.value in d.leases && (NotedAsForced(d, c.request.task) <==> Refused(desk, c))
            && (Refused(desk, c) ==>
                  && Overdue(desk, c, maxWait) && a == Admitted(c.request.plan, {})
                  && (Executes(d.leases[c.lease.value]) ==> d.leases == desk.leases))
            && (!Refused(desk, c) ==>
                  && a.plan == Attempt(desk, c).value.plan
                  && (Resubmits(desk, c) ==> d.leases == desk.leases)
                  && (Holds(d.leases, c.lease.value, a.plan)
                      <==> !Resubmits(desk, c) || PlanOn(desk.leases, c.lease.value) == Attempt(desk, c).value.plan))
  {
    hide PublishPlan, BehindBlanket, Settle, Standing, NarrowToBranch, Holds, WasPartial, TrailOf, Waited, VerdictOn, View,
         NotedAsForced;
    var l := c.lease.value;
    var split := WasPartial(TrailOf(desk, c.request.task));
    var v := VerdictOn(desk, c);
    var (blanket, active) := Standing(c);
    PublishIsHonest(desk, l, c.request, c.reading.ids);
    PublishReturnsRequest(desk, l, c.request, c.reading.ids);
    if blanket.Some? {
      BlanketIsHonest(desk, l, c.request, blanket.value.task, split, c.now, maxWait);
      BlanketAdmitsByForce(desk, c.request, blanket.value.task, split, c.now, maxWait);
    }
    SettleIsHonest(desk, l, c.request, c.reading.ids, v, split, c.now, maxWait);
    if Settle(desk, l, c.request, c.reading.ids, v, split, c.now, maxWait).0.Admitted? {
      SettleReturnsGrant(desk, l, c.request, c.reading.ids, v, split, c.now, maxWait);
    }
  }

  // ----- The whole answer

  /** Nobody of this branch was there to decide against, so the plan was granted as it stood. */
  predicate Unopposed(c: Call) {
    c.reading.active == [] || (Standing(c).0.None? && View(c) == [])
  }

  /** The admission a live call ends on: the holder's claim it is refused behind; what its lease already
      held where that stands; and otherwise what was decided. */
  function Ruling(desk: Desk, c: Call): Admission
    requires Live(desk, c)
  {
    if Unopposed(c) then GRANTED
    else if Standing(c).0.Some? then Admission(Sequenced, [Standing(c).0.value.task], {})
    else if Attempt(desk, c).Some? && Resubmits(desk, c) then desk.leases[c.lease.value].submission.value.admission
    else VerdictOn(desk, c).admission
  }

  /** The write of a live call found another admitted set than the one that was read. */
  predicate FoundStale(desk: Desk, c: Call)
    requires Live(desk, c)
  {
    Attempt(desk, c).Some? && !Resubmits(desk, c)
    && ApprovedOthers(desk.leases, desk.leases[c.lease.value].repository, c.lease.value) != c.reading.ids
  }

  /** The answer that follows from an admission: granted, and told what is withheld; let through for
      having waited; or deferred, and told behind whom. */
  predicate AnswersAs(r: Request, ruling: Admission, overdue: bool, plan: Plan, a: Answer) {
    if IsApproved(ruling) then a == Admitted(plan, if IsPartial(ruling) then ruling.withheld else {})
    else if overdue then a == Admitted(r.plan, {})
    else a == Deferred(ruling.blockedBy)
  }

  /** What the trail says last, what it says of the wait if that is new, and whether the task goes on
      waiting. */
  predicate TellsOf(desk: Desk, d: Desk, t: TaskId, ruling: Admission, plan: Plan, overdue: bool, now: Millis) {
    var before, trail := TrailOf(desk, t), TrailOf(d, t);
    var waited := Waited(desk, t, false, now).0;
    && trail != []
    && (trail == before || (&& trail[..|trail| - 1] == before
                             && trail[|trail| - 1].waitedMs == if overdue && !IsApproved(ruling) && waited > 0 then waited else 0))
    && FingerprintOf(trail[|trail| - 1])
       == Fingerprint(ruling.status, multiset(ruling.blockedBy), IsPartial(ruling),
                      if IsPartial(ruling) then Files(plan) else {}, overdue && !IsApproved(ruling))
    && (t in d.since <==> !IsApproved(ruling) && !overdue)
  }

  lemma LastTold(desk: Desk, t: TaskId, e: Event)
    ensures var trail := TrailOf(WithEvent(desk, t, e), t);
            && trail != [] && FingerprintOf(trail[|trail| - 1]) == FingerprintOf(e)
            && (trail == TrailOf(desk, t) || (trail[..|trail| - 1] == TrailOf(desk, t) && trail[|trail| - 1] == e))
    ensures TrailOf(NotWaiting(WithEvent(desk, t, e), t), t) == TrailOf(WithEvent(desk, t, e), t)
  {
  }

  /** A trail written last with an event that tells of the ruling, by a desk that waits as it should. */
  lemma NotedTellsOf(desk: Desk, ticking: Desk, t: TaskId, e: Event, ruling: Admission, plan: Plan, overdue: bool, now: Millis)
    requires TrailOf(ticking, t) == TrailOf(desk, t)
    requires FingerprintOf(e) == Fingerprint(ruling.status, multiset(ruling.blockedBy), IsPartial(ruling),
                                             if IsPartial(ruling) then Files(plan) else {}, overdue && !IsApproved(ruling))
    requires e.waitedMs == if overdue && !IsApproved(ruling) then AsNat(Waited(desk, t, false, now).0) else 0
    ensures IsApproved(ruling) || overdue ==> TellsOf(desk, NotWaiting(WithEvent(ticking, t, e), t), t, ruling, plan, overdue, now)
    ensures !IsApproved(ruling) && !overdue && t in ticking.since ==>
      TellsOf(desk, WithEvent(ticking, t, e), t, ruling, plan, overdue, now)
  {
    LastTold(ticking, t, e);
    hide Record, TrailOf, Waited;
  }

  lemma GrantIsNoted(desk: Desk, leases: Leases, r: Request, overdue: bool, now: Millis)
    ensures var told := WithEvent(desk.(leases := leases), r.task, Event(Approved, [], false, {}, false, 0));
            TellsOf(desk, NotWaiting(told, r.task), r.task, GRANTED, r.plan, overdue, now)
  {
    NotedTellsOf(desk, desk.(leases := leases), r.task, Event(Approved, [], false, {}, false, 0), GRANTED, r.plan, overdue, now);
    hide TellsOf, WithEvent, NotWaiting;
  }

  lemma PublishAnswers(desk: Desk, l: LeaseId, r: Request, ids: set<LeaseId>, overdue: bool, now: Millis)
    requires IsLive(desk.leases, l)
    ensures var (a, d) := PublishPlan(desk, l, r, ids);
            && (a.Again? <==> (r.revising || !Executes(desk.leases[l]))
                              && ApprovedOthers(desk.leases, desk.leases[l].repository, l) != ids)
            && if a.Again? then d == desk
               else AnswersAs(r, GRANTED, overdue, r.plan, a) && TellsOf(desk, d, r.task, GRANTED, r.plan, overdue, now)
  {
    var leases := Save(desk.leases, l, Submission(r.plan, GRANTED), ids, r.revising).1;
    GrantIsNoted(desk, leases, r, overdue, now);
    hide TellsOf, WithEvent, NotWaiting, ApprovedOthers;
  }

  lemma BlanketAnswers(desk: Desk, r: Request, holder: TaskId, split: bool, now: Millis, maxWait: Millis)
    ensures var (a, d) := BehindBlanket(desk, r, holder, split, now, maxWait);
            var ruling := Admission(Sequenced, [holder], {});
            var overdue := MayForce(r, split, Waited(desk, r.task, false, now).0, maxWait);
            !a.Again? && AnswersAs(r, ruling, overdue, r.plan, a) && TellsOf(desk, d, r.task, ruling, r.plan, overdue, now)
  {
    var (waited, ticking) := Waited(desk, r.task, false, now);
    var forced := MayForce(r, split, waited, maxWait);
    NotedTellsOf(desk, ticking, r.task, Event(Sequenced, [holder], false, {}, forced, if forced then AsNat(waited) else 0),
                 Admission(Sequenced, [holder], {}), r.plan, forced, now);
    hide TellsOf, WithEvent, NotWaiting;
  }

  lemma ConcludeAnswers(desk: Desk, r: Request, granted: Plan, ruling: Admission, split: bool, now: Millis, maxWait: Millis)
    ensures var (a, d) := Conclude(desk, r, granted, ruling, split, now, maxWait);
            var overdue := MayForce(r, split, Waited(desk, r.task, false, now).0, maxWait);
            !a.Again? && AnswersAs(r, ruling, overdue, granted, a) && TellsOf(desk, d, r.task, ruling, granted, overdue, now)
  {
    var (waited, ticking) := Waited(desk, r.task, IsApproved(ruling), now);
    var forced := MayForce(r, split, waited, maxWait) && !IsApproved(ruling);
    NotedTellsOf(desk, ticking, r.task, AdmissionEvent(ruling, granted, forced, waited), ruling, granted,
                 MayForce(r, split, Waited(desk, r.task, false, now).0, maxWait), now);
    hide TellsOf, WithEvent, NotWaiting;
  }

  /** None of this is about the table. */
  lemma TellsOfAnyTable(desk: Desk, leases: Leases, d: Desk, t: TaskId, ruling: Admission, plan: Plan, overdue: bool, now: Millis)
    ensures TellsOf(desk.(leases := leases), d, t, ruling, plan, overdue, now)
            <==> TellsOf(desk, d, t, ruling, plan, overdue, now)
  {
  }

  lemma SettleAnswers(desk: Desk, l: LeaseId, r: Request, ids: set<LeaseId>, v: Verdict, split: bool,
                      now: Millis, maxWait: Millis)
    requires IsLive(desk.leases, l)
    ensures var (a, d) := Settle(desk, l, r, ids, v, split, now, maxWait);
            var writes, stands := !r.revising || IsApproved(v.admission), Executes(desk.leases[l]) && !r.revising;
            var ruling := if stands then desk.leases[l].submission.value.admission else v.admission;
            var overdue := MayForce(r, split, Waited(desk, r.task, false, now).0, maxWait);
            && (a.Again? <==> writes && !stands && ApprovedOthers(desk.leases, desk.leases[l].repository, l) != ids)
            && if a.Again? then d == desk
               else AnswersAs(r, ruling, overdue, v.granted, a) && TellsOf(desk, d, r.task, ruling, v.granted, overdue, now)
  {
    hide Conclude, AnswersAs, TellsOf, ApprovedOthers;
    var write := !(r.revising && !IsApproved(v.admission));
    var (outcome, leases) :=
      if write then Save(desk.leases, l, Submission(v.granted, v.admission), ids, r.revising) else (Saved, desk.leases);
    var ruling := if outcome.AlreadyAdmitted? then outcome.stored.admission else v.admission;
    ConcludeAnswers(desk.(leases := leases), r, v.granted, ruling, split, now, maxWait);
    TellsOfAnyTable(desk, leases, Settle(desk, l, r, ids, v, split, now, maxWait).1, r.task, ruling, v.granted,
                    MayForce(r, split, Waited(desk, r.task, false, now).0, maxWait), now);
  }

  lemma RefusalNamesNoPlan(desk: Desk, d: Desk, r: Request, ruling: Admission, p: Plan, q: Plan, overdue: bool,
                           now: Millis, a: Answer)
    requires !IsApproved(ruling)
    ensures AnswersAs(r, ruling, overdue, p, a) <==> AnswersAs(r, ruling, overdue, q, a)
    ensures TellsOf(desk, d, r.task, ruling, p, overdue, now) <==> TellsOf(desk, d, r.task, ruling, q, overdue, now)
  {
  }

  /** What a live call is answered, and what its trail says of it: it is taken again exactly where its
      write found another admitted set, and otherwise follows from the admission it ends on, a split's
      withheld files, a refusal's holders and the waiting included. */
  lemma AnswerFollowsTheRuling(desk: Desk, c: Call, maxWait: Millis)
    requires Live(desk, c)
    ensures var (a, d) := Admit(desk, c, maxWait);
            var overdue := Overdue(desk, c, maxWait);
            var plan := if Attempt(desk, c).Some? then Attempt(desk, c).value.plan else c.request.plan;
            && (a.Again? <==> FoundStale(desk, c))
            && (a.Again? ==> d == desk)
            && (!a.Again? ==>
                  && AnswersAs(c.request, Ruling(desk, c), overdue, plan, a)
                  && TellsOf(desk, d, c.request.task, Ruling(desk, c), plan, overdue, c.now))
  {
    hide PublishPlan, BehindBlanket, Settle, Standing, NarrowToBranch, WasPartial, TrailOf, Waited, VerdictOn, View,
         ApprovedOthers, AnswersAs, TellsOf;
    var l := c.lease.value;
    var split := WasPartial(TrailOf(desk, c.request.task));
    var (a, d) := Admit(desk, c, maxWait);
    if !IsApproved(VerdictOn(desk, c).admission) {
      RefusalNamesNoPlan(desk, d, c.request, VerdictOn(desk, c).admission, VerdictOn(desk, c).granted, c.request.plan,
                         Overdue(desk, c, maxWait), c.now, a);
    }
    PublishAnswers(desk, l, c.request, c.reading.ids, Overdue(desk, c, maxWait), c.now);
    if Standing(c).0.Some? {
      BlanketAnswers(desk, c.request, Standing(c).0.value.task, split, c.now, maxWait);
    }
    SettleAnswers(desk, l, c.request, c.reading.ids, VerdictOn(desk, c), split, c.now, maxWait);
    RevisersDoNotWait(desk, c, maxWait);
  }

  lemma RevisersDoNotWait(desk: Desk, c: Call, maxWait: Millis)
    ensures Overdue(desk, c, maxWait) <==> MayForce(c.request, WasPartial(TrailOf(desk, c.request.task)),
                                                     Waited(desk, c.request.task, false, c.now).0, maxWait)
  {
  }

  /** Where the lease is lost by the write, the task goes on with the plan it has, and the table stands. */
  lemma ALostLeaseIsLetThrough(desk: Desk, c: Call, maxWait: Millis)
    requires Attempt(desk, c).Some? && !Live(desk, c)
    ensures var (a, d) := Admit(desk, c, maxWait);
            a == Admitted(c.request.plan, {}) && d.leases == desk.leases
  {
    hide Record, TrailOf, View, Standing, VerdictOn;
  }

  /** A call that no live lease stands behind is let through as it is, and leaves no mark. */
  lemma WithoutALeaseNothingIsDecided(desk: Desk, c: Call, maxWait: Millis)
    requires c.lease.None? || !c.reading.live
    ensures Admit(desk, c, maxWait) == (Admitted(c.request.plan, {}), desk)
  {
  }

  lemma PublishReturnsRequest(desk: Desk, l: LeaseId, r: Request, ids: set<LeaseId>)
    ensures PublishPlan(desk, l, r, ids).0.Admitted? ==> PublishPlan(desk, l, r, ids).0.plan == r.plan
  {
  }

  lemma BlanketAdmitsByForce(desk: Desk, r: Request, holder: TaskId, split: bool, now: Millis, maxWait: Millis)
    ensures BehindBlanket(desk, r, holder, split, now, maxWait).0.Admitted?
            <==> MayForce(r, split, Waited(desk, r.task, false, now).0, maxWait)
  {
  }

  /** Where they do differ: a task admitted on `a` that asks again for `b` is told it has `b`, while its
      lease goes on saying `a`. */
  lemma ResubmissionIsAnsweredWithAnotherPlan(maxWait: Millis)
    requires maxWait > 0
    ensures var held, asked := Plan("t", map["a" := {}], Ordinary), Plan("t", map["b" := {}], Ordinary);
            var lease := Lease("t", "r", None, true, Some(Submission(held, GRANTED)));
            var desk := Desk(map[0 := lease], map[], map[]);
            var opinion := Opinion(asked, GRANTED, None);
            var call := Call(Some(0), Request("t", asked, false, true, false), Reading(true, "", [], {}), None, opinion, 0);
            var (a, d) := Admit(desk, call, maxWait);
            && Resubmits(desk, call) && !Refused(desk, call)
            && a == Admitted(asked, {}) && d.leases == desk.leases && Holds(d.leases, 0, held) && held != asked
  {
    var held, asked := Plan("t", map["a" := {}], Ordinary), Plan("t", map["b" := {}], Ordinary);
    assert "a" in held.scope && "a" !in asked.scope;
  }

  lemma SettleWrites(desk: Desk, l: LeaseId, r: Request, ids: set<LeaseId>, v: Verdict, split: bool,
                     now: Millis, maxWait: Millis)
    ensures var (a, d) := Settle(desk, l, r, ids, v, split, now, maxWait);
            && d.leases == (if r.revising && !IsApproved(v.admission) then desk.leases
                            else Save(desk.leases, l, Submission(v.granted, v.admission), ids, r.revising).1)
            && (r.revising && !a.Admitted? ==> d.leases == desk.leases)
  {
  }

  lemma PublishWrites(desk: Desk, l: LeaseId, r: Request, ids: set<LeaseId>)
    ensures var (a, d) := PublishPlan(desk, l, r, ids);
            && d.leases == Save(desk.leases, l, Submission(r.plan, GRANTED), ids, r.revising).1
            && (!a.Admitted? ==> d.leases == desk.leases)
  {
  }

  lemma BlanketWritesNothing(desk: Desk, r: Request, holder: TaskId, split: bool, now: Millis, maxWait: Millis)
    ensures BehindBlanket(desk, r, holder, split, now, maxWait).1.leases == desk.leases
  {
  }

  /** The guarded write is the only thing a call does to the table. */
  lemma OnlySaveWrites(desk: Desk, c: Call, maxWait: Millis)
    ensures Admit(desk, c, maxWait).1.leases == TableAfter(desk, c)
    ensures c.request.revising && !Admit(desk, c, maxWait).0.Admitted? ==> TableAfter(desk, c) == desk.leases
  {
    if c.lease.Some? && c.reading.live {
      var split := WasPartial(TrailOf(desk, c.request.task));
      PublishWrites(desk, c.lease.value, c.request, c.reading.ids);
      if c.reading.active != [] {
        var (blanket, active) := Standing(c);
        if blanket.Some? {
          BlanketWritesNothing(desk, c.request, blanket.value.task, split, c.now, maxWait);
        } else {
          SettleWrites(desk, c.lease.value, c.request, c.reading.ids, VerdictOn(desk, c), split, c.now, maxWait);
        }
      }
    }
  }

  /** Whatever the answer: no admitted contract is lost or changed on any other lease, none is replaced
      by one that is not admitted, and a refused widening leaves the table exactly as it was. */
  lemma ContractsAreStable(desk: Desk, c: Call, maxWait: Millis, l: LeaseId)
    requires l in desk.leases
    ensures var (a, d) := Admit(desk, c, maxWait);
            && d.leases.Keys == desk.leases.Keys
            && (c.lease != Some(l) ==> d.leases[l] == desk.leases[l])
            && (Executes(desk.leases[l]) ==> Executes(d.leases[l]))
            && (Executes(desk.leases[l]) && !c.request.revising ==> d.leases[l] == desk.leases[l])
            && (c.request.revising && !a.Admitted? ==> d.leases == desk.leases)
  {
    OnlySaveWrites(desk, c, maxWait);
  }

  /** The reading is what the table said at `seen`. Another lease of the same task may be in it. */
  ghost predicate ReadFrom(seen: Leases, c: Call) {
    && c.lease.Some? && c.lease.value in seen && seen[c.lease.value].task == c.request.task
    && c.reading.here == BranchOf(seen[c.lease.value])
    && c.reading.ids == ApprovedOthers(seen, seen[c.lease.value].repository, c.lease.value)
    && (forall i :: i in c.reading.ids ==> Entered(seen, c, i))
    && (forall k :: 0 <= k < |c.reading.active| ==> Sourced(seen, c, c.reading.active[k]))
  }

  /** An entry is either a lease that was read or an open branch's claim. */
  predicate Sourced(seen: Leases, c: Call, e: Entry) {
    if e.lease.Some? then e.lease.value in c.reading.ids && e.lease.value in seen
                          && Executes(seen[e.lease.value]) && EntryIs(e, e.lease.value, seen[e.lease.value])
    else !IsBlanket(e.plan)
  }

  ghost predicate Entered(seen: Leases, c: Call, i: LeaseId)
    requires i in seen && Executes(seen[i])
  {
    exists k :: 0 <= k < |c.reading.active| && EntryIs(c.reading.active[k], i, seen[i])
  }

  predicate EntryIs(e: Entry, i: LeaseId, lease: Lease)
    requires Executes(lease)
  {
    e.lease == Some(i) && e.task == lease.task && e.branch == BranchOf(lease) && e.plan == lease.submission.value.plan
  }

  /** What the authority looked at in the end: the narrowed plan for the holder it narrowed. */
  function ViewedPlan(seen: Leases, c: Call, i: LeaseId): Plan
    requires i in seen && Executes(seen[i])
  {
    var blanket := FirstBlanket(c.reading.active);
    if Standing(c).0.None? && blanket.Some? && seen[i].task == blanket.value.task
    then c.narrowed.value.0 else PlanOn(seen, i)
  }

  lemma {:induction false} OwnBranchIsWhole(active: seq<Entry>, here: string, k: nat)
    requires k < |active| && active[k].branch == here
    ensures exists j :: 0 <= j < |NarrowToBranch(active, here)| && NarrowToBranch(active, here)[j] == active[k]
  {
    var rest := NarrowToBranch(active[1..], here);
    var r := NarrowToBranch(active, here);
    if k == 0 {
      assert r[0] == active[0];
    } else {
      OwnBranchIsWhole(active[1..], here, k - 1);
      var j :| 0 <= j < |rest| && rest[j] == active[k];
      assert r[|r| - |rest| + j] == active[k];
    }
  }

  /** What one branch decides against: exactly its own plans, and of another's what that still contends with. */
  lemma {:induction false} BranchViewIff(active: seq<Entry>, here: string, e: Entry)
    ensures e in NarrowToBranch(active, here) <==> exists k :: 0 <= k < |active| && SeenAs(active[k], here, e)
  {
    if active != [] {
      BranchViewIff(active[1..], here, e);
      if k :| 0 <= k < |active| && SeenAs(active[k], here, e) {
        assert k > 0 ==> SeenAs(active[1..][k - 1], here, e);
      }
      if k :| 0 <= k < |active[1..]| && SeenAs(active[1..][k], here, e) {
        assert SeenAs(active[k + 1], here, e);
      }
    }
  }

  predicate SeenAs(e: Entry, here: string, seen: Entry) {
    if e.branch == here then seen == e else e.shared.Some? && seen == e.(plan := e.shared.value)
  }

  /** A call is refused behind the first repository-wide claim it reads, unless that has an estimate and
      was narrowed; then its holder's entries, and no others, are replaced by the narrowed plan. */
  lemma {:induction false} StandingIs(c: Call, k: nat)
    requires k < |c.reading.active| && IsBlanket(c.reading.active[k].plan)
    requires forall j :: 0 <= j < k ==> !IsBlanket(c.reading.active[j].plan)
    ensures var active := c.reading.active;
            if c.narrowed.Some? && Files(active[k].plan) != {} then
              && Standing(c).0.None? && |Standing(c).1| == |active|
              && forall j :: 0 <= j < |active| ==>
                   Standing(c).1[j] == if active[j].task == active[k].task
                                       then active[j].(plan := c.narrowed.value.0, shared := c.narrowed.value.1) else active[j]
            else Standing(c) == (Some(active[k]), active)
  {
    FirstIs(c.reading.active, k);
  }

  lemma {:induction false} FirstIs(active: seq<Entry>, k: nat)
    requires k < |active| && IsBlanket(active[k].plan) && forall j :: 0 <= j < k ==> !IsBlanket(active[j].plan)
    ensures FirstBlanket(active) == Some(active[k])
  {
    if k > 0 {
      FirstIs(active[1..], k - 1);
    }
  }

  lemma {:induction false} BlanketFound(active: seq<Entry>)
    requires FirstBlanket(active).Some?
    ensures exists k :: 0 <= k < |active| && active[k] == FirstBlanket(active).value && IsBlanket(active[k].plan)
  {
    if !IsBlanket(active[0].plan) {
      BlanketFound(active[1..]);
      var k :| 0 <= k < |active[1..]| && active[1..][k] == FirstBlanket(active[1..]).value;
      assert active[k + 1] == FirstBlanket(active).value;
    }
  }

  lemma {:induction false} NoBlanketFound(active: seq<Entry>, k: nat)
    requires FirstBlanket(active).None? && k < |active|
    ensures !IsBlanket(active[k].plan)
  {
    if k > 0 {
      NoBlanketFound(active[1..], k - 1);
    }
  }

  /** Another task's admitted plan on the branch the call is made from. */
  predicate Contends(seen: Leases, c: Call, i: LeaseId)
    requires i in seen
  {
    i in c.reading.ids && BranchOf(seen[i]) == c.reading.here && seen[i].task != c.request.task
  }

  /** A submission that is attempted and approved was arbitrated against its own branch's view. */
  lemma WritingIsArbitrated(desk: Desk, c: Call, seen: Leases, i: LeaseId)
    requires Lawful(c) && ReadFrom(seen, c)
    requires Attempt(desk, c).Some? && IsApproved(Attempt(desk, c).value.admission)
    requires i in seen && Contends(seen, c, i)
    ensures Compatible(Attempt(desk, c).value.plan, ViewedPlan(seen, c, i)) && !IsBlanket(ViewedPlan(seen, c, i))
  {
    hide Rule, Compatible, Narrows;
    assert Entered(seen, c, i);
    ViewedOnOwnBranch(c, seen, i);
    ApprovedIsArbitrated(c.opinion, View(c), SplitAllowed(desk, c.request));
  }

  /** The bridge to the interleaved protocol: whatever admitted plan a call writes was arbitrated
      against every other task's plan of its own branch in the admitted set it observed, each as it was
      finally viewed, and none of those still claimed the whole repository. `OnlySaveWrites` says that
      the table a call leaves is `TableAfter`. */
  lemma WritesAreArbitrated(desk: Desk, c: Call, seen: Leases, i: LeaseId)
    requires Lawful(c) && ReadFrom(seen, c)
    requires TableAfter(desk, c) != desk.leases && Executes(TableAfter(desk, c)[c.lease.value])
    requires i in seen && Contends(seen, c, i)
    ensures ApprovedOthers(desk.leases, desk.leases[c.lease.value].repository, c.lease.value) == c.reading.ids
    ensures Compatible(PlanOn(TableAfter(desk, c), c.lease.value), ViewedPlan(seen, c, i))
    ensures !IsBlanket(ViewedPlan(seen, c, i))
  {
    hide VerdictOn, View, Compatible, Narrows;
    WritingIsArbitrated(desk, c, seen, i);
  }

  /** A plan executing on this branch reaches the decision whole, as it was finally viewed. */
  lemma ViewedOnOwnBranch(c: Call, seen: Leases, i: LeaseId)
    requires ReadFrom(seen, c) && i in c.reading.ids && BranchOf(seen[i]) == c.reading.here
    requires Standing(c).0.None?
    ensures exists j :: 0 <= j < |View(c)| && View(c)[j].task == seen[i].task && View(c)[j].plan == ViewedPlan(seen, c, i)
  {
    var active := Standing(c).1;
    assert Entered(seen, c, i);
    var k :| 0 <= k < |c.reading.active| && EntryIs(c.reading.active[k], i, seen[i]);
    assert active[k].task == seen[i].task && active[k].plan == ViewedPlan(seen, c, i);
    OwnBranchIsWhole(active, c.reading.here, k);
    var j :| 0 <= j < |View(c)| && View(c)[j] == active[k];
  }

  /** What a claim on the whole repository needs of the table it reads. */
  predicate MayClaim(seen: Leases, enabled: bool, lease: Option<LeaseId>, crossing: bool) {
    && enabled && lease.Some? && IsLive(seen, lease.value) && seen[lease.value].submission.None?
    && !Joined(seen, seen[lease.value].repository, lease.value) && !crossing
  }

  /** The claim of a task that found itself alone, and the table after it. `crossing` says that another
      branch holds a claim that reaches across branches. */
  function ClaimWhole(table: Leases, seen: Leases, enabled: bool, lease: Option<LeaseId>, task: TaskId,
                      estimate: set<File>, crossing: bool): (Option<Plan>, Leases)
  {
    if !MayClaim(seen, enabled, lease, crossing) then (None, table)
    else
      var plan := BlanketPlan(task, estimate);
      var (outcome, table') := Save(table, lease.value, Submission(plan, GRANTED), {}, false);
      if outcome.Saved? then (Some(plan), table') else (None, table)
  }

  /** A claim is granted exactly when nobody was there to be read and nobody admitted has arrived by
      the time it is written; then it is the repository's only admitted plan and reaches every file,
      and otherwise nothing is written. */
  lemma ClaimIsGrantedIff(table: Leases, seen: Leases, enabled: bool, lease: Option<LeaseId>, task: TaskId,
                          estimate: set<File>, crossing: bool)
    ensures var (claimed, table') := ClaimWhole(table, seen, enabled, lease, task, estimate, crossing);
            && (claimed.Some? <==>
                  && enabled && !crossing && lease.Some? && IsLive(seen, lease.value) && seen[lease.value].submission.None?
                  && (forall l :: l in seen && l != lease.value && seen[l].active
                                  ==> seen[l].repository != seen[lease.value].repository)
                  && IsLive(table, lease.value) && !Executes(table[lease.value])
                  && ApprovedOthers(table, table[lease.value].repository, lease.value) == {})
            && (claimed.None? ==> table' == table)
            && (claimed.Some? ==>
                  && Holds(table', lease.value, claimed.value) && Files(claimed.value) == estimate
                  && (forall f :: Touches(claimed.value, f))
                  && (forall l :: l in table' && l != lease.value ==>
                        && table'[l] == table[l]
                        && (Executes(table'[l]) ==> table'[l].repository != table'[lease.value].repository)))
  {
    if MayClaim(seen, enabled, lease, crossing) && IsLive(table, lease.value) {
      var others := ApprovedOthers(table, table[lease.value].repository, lease.value);
      forall l | l in table && l != lease.value && Executes(table[l]) && table[l].repository == table[lease.value].repository
        ensures l in others
      {
      }
    }
  }

  /** The authority's own state, changed step by step. */
  class LeasePlanAuthority {
    var leases: Leases
    var trails: map<TaskId, Trail>
    var waitingSince: map<TaskId, Millis>
    var asked: set<TaskId>
    const maxWaitMs: Millis

    constructor (table: Leases, history: map<TaskId, Trail>, maxWait: Millis)
      ensures Snapshot() == Desk(table, history, map[]) && asked == {} && maxWaitMs == maxWait
    {
      leases, trails, waitingSince, asked := table, history, map[], {};
      maxWaitMs := maxWait;
    }

    ghost function Snapshot(): Desk
      reads this
    {
      Desk(leases, trails, waitingSince)
    }

    method WaitedMs(t: TaskId, approved: bool, now: Millis) returns (waited: Millis)
      modifies this`waitingSince
      ensures (waited, Snapshot()) == Waited(old(Snapshot()), t, approved, now)
    {
      if approved {
        return 0;
      }
      if t !in waitingSince {
        waitingSince := waitingSince[t := now];
        return 0;
      }
      return now - waitingSince[t];
    }

    method Note(t: TaskId, e: Event)
      modifies this`trails
      ensures Snapshot() == WithEvent(old(Snapshot()), t, e)
    {
      var trail := if t in trails then trails[t] else [];
      trails := trails[t := Record(trail, e)];
    }

    method Publish(l: LeaseId, r: Request, ids: set<LeaseId>) returns (a: Answer)
      modifies this
      ensures (a, Snapshot()) == PublishPlan(old(Snapshot()), l, r, ids) && asked == old(asked)
    {
      var (outcome, table) := Save(leases, l, Submission(r.plan, GRANTED), ids, r.revising);
      if outcome.Stale? {
        return Again;
      }
      leases := table;
      Note(r.task, Event(Approved, [], false, {}, false, 0));
      waitingSince := waitingSince - {r.task};
      return Admitted(r.plan, {});
    }

    method RefuseBehindBlanket(r: Request, holder: TaskId, split: bool, now: Millis) returns (a: Answer)
      modifies this
      ensures (a, Snapshot()) == BehindBlanket(old(Snapshot()), r, holder, split, now, maxWaitMs) && asked == old(asked)
    {
      var waited := WaitedMs(r.task, false, now);
      var forced := MayForce(r, split, waited, maxWaitMs);
      Note(r.task, Event(Sequenced, [holder], false, {}, forced, if forced then AsNat(waited) else 0));
      if forced {
        waitingSince := waitingSince - {r.task};
        return Admitted(r.plan, {});
      }
      return Deferred([holder]);
    }

    method SettleVerdict(l: LeaseId, r: Request, ids: set<LeaseId>, v: Verdict, split: bool, now: Millis)
      returns (a: Answer)
      modifies this
      ensures (a, Snapshot()) == Settle(old(Snapshot()), l, r, ids, v, split, now, maxWaitMs) && asked == old(asked)
    {
      var admission := v.admission;
      if !(r.revising && !IsApproved(v.admission)) {
        var (outcome, table) := Save(leases, l, Submission(v.granted, v.admission), ids, r.revising);
        match outcome {
          case Stale => return Again;
          case LeaseLost => return Admitted(r.plan, {});
          case AlreadyAdmitted(stored) => admission := stored.admission;
          case Saved =>
        }
        leases := table;
      }
      var approved := IsApproved(admission);
      var waited := WaitedMs(r.task, approved, now);
      var forced := MayForce(r, split, waited, maxWaitMs) && !approved;
      Note(r.task, AdmissionEvent(admission, v.granted, forced, waited));
      if approved {
        waitingSince := waitingSince - {r.task};
        return Admitted(v.granted, if IsPartial(admission) then admission.withheld else {});
      }
      if forced {
        waitingSince := waitingSince - {r.task};
        return Admitted(r.plan, {});
      }
      return Deferred(admission.blockedBy);
    }

    method AdmitPlan(c: Call) returns (a: Answer)
      modifies this
      ensures (a, Snapshot()) == Admit(old(Snapshot()), c, maxWaitMs) && asked == old(asked)
    {
      hide Rule, Settle, BehindBlanket, PublishPlan, WasPartial;
      if c.lease.None? || !c.reading.live {
        return Admitted(c.request.plan, {});
      }
      if c.reading.active == [] {
        a := Publish(c.lease.value, c.request, c.reading.ids);
        return;
      }
      var trail := if c.request.task in trails then trails[c.request.task] else [];
      var split := WasPartial(trail);
      var maySplit := c.request.maySplit && !c.request.followUp && !split;
      var active := c.reading.active;
      var blanket := FirstBlanket(active);
      if blanket.Some? && Files(blanket.value.plan) != {} && c.narrowed.Some? {
        active := AfterNarrowing(active, blanket.value.task, c.narrowed.value);
        blanket := None;
      }
      if blanket.Some? {
        a := RefuseBehindBlanket(c.request, blanket.value.task, split, c.now);
        return;
      }
      active := NarrowToBranch(active, c.reading.here);
      if active == [] {
        a := Publish(c.lease.value, c.request, c.reading.ids);
        return;
      }
      var verdict := Rule(c.opinion, active, maySplit);
      a := SettleVerdict(c.lease.value, c.request, c.reading.ids, verdict, split, c.now);
    }

    /** One turn of a freeze, with the ask recorded before it is made. */
    method FreezeOnce(turn: Turn, id: LeaseId, plan: Plan, estimate: set<File>, ask: Ask) returns (r: FreezeAnswer)
      requires leases == turn.table
      modifies this`leases, this`asked
      ensures Freezing(r, leases, asked) == FreezeClaim(turn, old(asked), id, plan, estimate, ask)
    {
      hide Conversion, Approves;
      if !IsBlanket(plan) || id !in turn.seen || !turn.seen[id].active {
        return Kept;
      }
      if Converted(turn.seen[id], plan.task) {
        return Became(turn.seen[id].submission.value.plan);
      }
      if !Joined(turn.near, turn.seen[id].repository, id) {
        return Kept;
      }
      var mine := Without(plan, GivenBack(turn.seen[id]));
      var ids := OthersRead(turn, id);
      var answer: Ask := Silent;
      if !ask.Unreachable? && plan.task !in asked {
        ghost var before := asked;
        asked := asked + {plan.task};
        if ask.StillThinking? {
          asked := asked - {plan.task};
          assert asked == before;
          return AskPending;
        }
        answer := ask;
      }
      if turn.observed.None? {
        return Unreadable;
      }
      if answer.Said? {
        var converted := Conversion(turn.near, ids, mine, answer.files, answer.symbols, turn.observed.value);
        if converted.Some? && Approves(turn.hearing, converted.value) {
          var (outcome, table) := Save(leases, id, Submission(converted.value, GRANTED), ids, true);
          if outcome.Saved? {
            leases := table;
            return Became(converted.value);
          }
        }
      }
      var narrowTo := turn.observed.value;
      if narrowTo == {} {
        narrowTo := estimate - GivenBack(turn.seen[id]);
      }
      if narrowTo == {} {
        return Kept;
      }
      var frozen := Freeze(mine, narrowTo);
      var (outcome, table) := Save(leases, id, Submission(frozen, GRANTED), ids, true);
      if outcome.Stale? {
        return Reread;
      }
      if outcome.LeaseLost? {
        return Kept;
      }
      leases := table;
      return Became(frozen);
    }

    /** The freeze. Each turn meets the table as everybody else has left it by then; a stale write takes
        another, on what is left of the request. */
    method FreezeBlanketClaim(turns: seq<Turn>, id: LeaseId, plan: Plan, estimate: set<File>, ask: Ask)
      returns (r: FreezeAnswer)
      requires turns != []
      modifies this`leases, this`asked
      ensures Freezing(r, leases, asked) == FreezeTurns(turns, old(asked), id, plan, estimate, ask)
      decreases |turns|
    {
      hide FreezeClaim;
      leases := turns[0].table;
      r := FreezeOnce(turns[0], id, plan, estimate, ask);
      if r.Reread? && |turns| > 1 {
        var given := GivenBack(turns[0].seen[id]);
        r := FreezeBlanketClaim(turns[1..], id, Without(plan, given), estimate - given, ask);
      }
    }

    method NarrowBlanketHolder(table: Leases, seen: Leases, id: LeaseId, holder: Plan, wanted: set<File>, ask: Ask,
                               first: Option<set<File>>, turns: seq<Turn>)
      returns (r: ArrivalAnswer)
      requires !ask.Unreachable? ==> turns != []
      modifies this`leases, this`asked
      ensures var a := NarrowOnArrival(table, old(asked), seen, id, holder, wanted, ask, first, turns);
              r == a.answer && leases == a.table && asked == a.asked
    {
      hide FreezeClaim, FallBack, StillKept;
      leases := table;
      if id !in seen || !seen[id].active || seen[id].submission.None? || first.None? {
        return Stands;
      }
      var kept := StillKept(holder, wanted, first.value);
      if !ask.Unreachable? {
        var inner := FreezeBlanketClaim(turns, id, kept, Files(kept), ask);
        match inner {
          case Became(p) => return Narrowed(p);
          case AskPending => return Stands;
          case Reread => return Retrying;
          case _ => leases := table;
        }
      }
      r := FreezeUnasked(seen, id, kept, first.value);
    }

    method FreezeUnasked(seen: Leases, id: LeaseId, kept: Plan, observed: set<File>) returns (r: ArrivalAnswer)
      requires id in seen
      modifies this`leases
      ensures var a := FallBack(old(leases), asked, seen, id, kept, observed);
              r == a.answer && leases == a.table
    {
      var frozen := Freeze(kept, observed);
      var (outcome, table) := Save(leases, id, Submission(frozen, GRANTED),
                                   ApprovedOthers(seen, seen[id].repository, id), true);
      if !outcome.Saved? {
        return Stands;
      }
      leases := table;
      return Narrowed(frozen);
    }

    /** Claims the repository for a task that finds nobody else in it. */
    method ClaimRepository(seen: Leases, enabled: bool, lease: Option<LeaseId>, task: TaskId, estimate: set<File>,
                           crossing: bool)
      returns (claimed: Option<Plan>)
      modifies this`leases
      ensures (claimed, leases) == ClaimWhole(old(leases), seen, enabled, lease, task, estimate, crossing)
    {
      if !enabled || lease.None? {
        return None;
      }
      if lease.value !in seen || !seen[lease.value].active || seen[lease.value].submission.Some? {
        return None;
      }
      if Joined(seen, seen[lease.value].repository, lease.value) || crossing {
        return None;
      }
      var plan := BlanketPlan(task, estimate);
      var (outcome, table) := Save(leases, lease.value, Submission(plan, GRANTED), {}, false);
      if !outcome.Saved? {
        return None;
      }
      leases := table;
      return Some(plan);
    }
  }
}
