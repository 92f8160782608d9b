/** The queue of tasks and the work leases on them, as the store's own operations change them.

Task and lease ids are positions: both tables only grow, and are listed in the order they grew.
The clock is part of the store, so that no operation runs before one that came earlier.
*/
module TaskStore {
  import opened Optional

  type TaskId = nat
  type LeaseId = nat
  type Time = int

  datatype Status = Submitted | Claimed | Paused | Open | Planned | Integrated | Failed | Cancelled

  datatype Kind = Work | Question

  datatype Row = Row(
    kind: Kind,
    repository: string,
    project: string,
    branch: string,
    agent: string,
    submitter: Option<string>,
    after: Option<TaskId>,
    conversation: Option<string>,
    status: Status,
    claimedAt: Option<Time>,
    openedAt: Time)

  datatype Ending = Released | Expired | Completed | Failing

  datatype LeaseStatus = Active | Ended(how: Ending)

  datatype WorkLease = WorkLease(task: TaskId, worker: string, repository: string, status: LeaseStatus, expiresAt: Time)

  datatype Store = Store(now: Time, rows: seq<Row>, leases: seq<WorkLease>)

  /** The endings a task does not come back from on its own. */
  predicate IsOver(status: Status) {
    status.Integrated? || status.Failed? || status.Cancelled?
  }

  predicate IsActive(s: Store, l: LeaseId) {
    l < |s.leases| && s.leases[l].status.Active?
  }

  predicate IsLapsed(s: Store, l: LeaseId) {
    l < |s.leases| && s.leases[l].expiresAt <= s.now
  }

  /** Every active lease has time to run. */
  ghost predicate NoneLapsed(s: Store) {
    forall l :: 0 <= l < |s.leases| ==> !(s.leases[l].status.Active? && s.leases[l].expiresAt <= s.now)
  }

  predicate Holds(lease: WorkLease, t: TaskId) {
    lease.status.Active? && lease.task == t
  }

  predicate IsLeased(s: Store, t: TaskId) {
    exists l :: 0 <= l < |s.leases| && Holds(s.leases[l], t)
  }

  predicate HasStatus(s: Store, t: TaskId, status: Status) {
    t < |s.rows| && s.rows[t].status == status
  }

  function WithStatus(s: Store, t: TaskId, status: Status): Store
    requires t < |s.rows|
  {
    s.(rows := s.rows[t := s.rows[t].(status := status)])
  }

  function Requeued(s: Store, t: TaskId): Store
    requires t < |s.rows|
  {
    s.(rows := s.rows[t := s.rows[t].(status := Submitted, claimedAt := None)])
  }

  // ----- The operations, each with whether it was taken

  /** A released or expired lease returns its task to the queue, but only a claimed one. */
  function FinishLease(s: Store, l: LeaseId, how: Ending): (bool, Store) {
    if !IsActive(s, l) || how.Expired? != IsLapsed(s, l) then (false, s)
    else
      var ended := s.(leases := s.leases[l := s.leases[l].(status := Ended(how))]);
      var t := s.leases[l].task;
      (true, if (how.Released? || how.Expired?) && HasStatus(s, t, Claimed) then Requeued(ended, t) else ended)
  }

  /** The sweep over the first `n` leases. */
  function ExpireFirst(s: Store, n: nat): (r: Store)
    ensures |r.rows| == |s.rows| && |r.leases| == |s.leases| && r.now == s.now
  {
    if n == 0 then s else FinishLease(ExpireFirst(s, n - 1), n - 1, Expired).1
  }

  function ExpireLeases(s: Store): Store {
    ExpireFirst(s, |s.leases|)
  }

  /** The task waits on one that is not over and not open. */
  predicate IsHeldBack(s: Store, t: TaskId)
    requires t < |s.rows|
  {
    var after := s.rows[t].after;
    after.Some? && after.value < |s.rows|
    && var p := s.rows[after.value].status; p.Submitted? || p.Claimed? || p.Planned? || p.Paused?
  }

  predicate IsClaimable(s: Store, t: TaskId) {
    HasStatus(s, t, Submitted) && !IsHeldBack(s, t)
  }

  predicate Agrees<T(==)>(wanted: Option<T>, value: T) {
    wanted.Some? ==> wanted.value == value
  }

  /** Who asks for work, and within what bounds; the excluded are owners whose own machines are live. */
  datatype LeaseRequest = LeaseRequest(
    worker: string,
    repository: Option<string>,
    project: Option<string>,
    excluded: set<string>,
    parallelism: nat,
    ttl: nat)

  function ActiveIn(leases: seq<WorkLease>, repository: string): nat {
    if leases == [] then 0
    else
      var last := leases[|leases| - 1];
      ActiveIn(leases[..|leases| - 1], repository) + if last.status.Active? && last.repository == repository then 1 else 0
  }

  predicate IsWanted(row: Row, r: LeaseRequest) {
    && row.kind.Work? && Agrees(r.repository, row.repository) && Agrees(r.project, row.project)
    && !(row.submitter.Some? && row.submitter.value in r.excluded)
  }

  predicate HasRoom(s: Store, repository: string, r: LeaseRequest) {
    ActiveIn(s.leases, repository) < r.parallelism
  }

  /** What a request may be given: work in scope that can be claimed, where the repository has room. */
  predicate IsEligible(s: Store, t: TaskId, r: LeaseRequest) {
    IsClaimable(s, t) && IsWanted(s.rows[t], r) && HasRoom(s, s.rows[t].repository, r)
  }

  /** The oldest eligible of the first `n` tasks. */
  function OldestEligible(s: Store, n: nat, r: LeaseRequest): (o: Option<TaskId>)
    ensures o.Some? ==> o.value < n && IsEligible(s, o.value, r)
    ensures forall t: TaskId :: t < (if o.Some? then o.value else n) ==> !IsEligible(s, t, r)
  {
    if n == 0 then None
    else
      var before := OldestEligible(s, n - 1, r);
      if before.Some? then before else if IsEligible(s, n - 1, r) then Some(n - 1) else None
  }

  function Choice(s: Store, named: Option<TaskId>, r: LeaseRequest): (o: Option<TaskId>)
    ensures o.Some? ==> IsEligible(s, o.value, r)
  {
    if named.None? then OldestEligible(s, |s.rows|, r)
    else if IsEligible(s, named.value, r) then named else None
  }

  /** Claims a task and mints its lease. */
  function Leased(s: Store, t: TaskId, r: LeaseRequest): Store
    requires t < |s.rows|
  {
    s.(rows := s.rows[t := s.rows[t].(status := Claimed, claimedAt := Some(s.now))],
       leases := s.leases + [WorkLease(t, r.worker, s.rows[t].repository, Active, s.now + r.ttl)])
  }

  /** One transaction: lapsed leases go first, then the named task, or the oldest, is leased. */
  function LeaseNext(s: Store, named: Option<TaskId>, r: LeaseRequest): (bool, Store) {
    var swept := ExpireLeases(s);
    var t := Choice(swept, named, r);
    if t.None? then (false, swept) else (true, Leased(swept, t.value, r))
  }

  predicate IsClaimableIn(s: Store, t: TaskId, repository: string, project: string) {
    IsClaimable(s, t) && s.rows[t].kind.Work? && s.rows[t].repository == repository && s.rows[t].project == project
  }

  /** Claims a repository's whole queue, without leases. */
  function ClaimQueue(s: Store, repository: string, project: string): Store {
    s.(rows := seq(|s.rows|, t requires 0 <= t < |s.rows| =>
         if IsClaimableIn(s, t, repository, project)
         then s.rows[t].(status := Claimed, claimedAt := Some(s.now)) else s.rows[t]))
  }

  function Retry(s: Store, t: TaskId): (bool, Store) {
    if HasStatus(s, t, Claimed) || HasStatus(s, t, Failed) then (true, Requeued(s, t)) else (false, s)
  }

  function Cancel(s: Store, t: TaskId): (bool, Store) {
    if t < |s.rows| && !IsOver(s.rows[t].status) then (true, WithStatus(s, t, Cancelled)) else (false, s)
  }

  function Pause(s: Store, t: TaskId): (bool, Store) {
    if HasStatus(s, t, Submitted) || HasStatus(s, t, Claimed) then (true, WithStatus(s, t, Paused)) else (false, s)
  }

  function Resume(s: Store, t: TaskId): (bool, Store) {
    if HasStatus(s, t, Paused) then (true, Requeued(s, t)) else (false, s)
  }

  function ReleasePlanned(s: Store, t: TaskId): (bool, Store) {
    if HasStatus(s, t, Planned) then (true, WithStatus(s, t, Submitted)) else (false, s)
  }

  /** A row completes only from claimed. */
  function Complete(s: Store, t: TaskId, integrated: bool): (bool, Store) {
    if HasStatus(s, t, Claimed) then (true, WithStatus(s, t, if integrated then Integrated else Failed)) else (false, s)
  }

  function OpenTask(s: Store, t: TaskId): (bool, Store) {
    if HasStatus(s, t, Claimed) then
      (true, s.(rows := s.rows[t := s.rows[t].(status := Open, openedAt := s.now)]))
    else (false, s)
  }

  /** Open conversations that have been silent since the cutoff end. */
  function ExpireOpen(s: Store, cutoff: Time, repository: Option<string>): Store {
    s.(rows := seq(|s.rows|, t requires 0 <= t < |s.rows| =>
         if s.rows[t].status.Open? && s.rows[t].openedAt <= cutoff
            && (repository.Some? ==> s.rows[t].repository == repository.value)
         then s.rows[t].(status := Integrated) else s.rows[t]))
  }

  /** A new turn settles its conversation's previous one and joins the queue, or the planned. */
  function Submit(s: Store, row: Row, planOnly: bool): Store {
    s.(rows := seq(|s.rows|, t requires 0 <= t < |s.rows| =>
         if s.rows[t].status.Open? && row.conversation.Some? && s.rows[t].conversation == row.conversation
         then s.rows[t].(status := Integrated) else s.rows[t])
       + [row.(status := if planOnly then Planned else Submitted, claimedAt := None)])
  }

  /** Only a lease that has not lapsed can be kept alive. */
  function Heartbeat(s: Store, l: LeaseId, ttl: nat): (bool, Store) {
    if !IsActive(s, l) || IsLapsed(s, l) || ttl == 0 then (false, s)
    else (true, s.(leases := s.leases[l := s.leases[l].(expiresAt := s.now + ttl)]))
  }

  datatype Op =
    | Tick(elapsed: nat)
    | OpSubmit(row: Row, planOnly: bool)
    | OpLease(named: Option<TaskId>, request: LeaseRequest)
    | OpClaimQueue(repository: string, project: string)
    | OpHeartbeat(lease: LeaseId, ttl: nat)
    | OpFinish(lease: LeaseId, how: Ending)
    | OpExpire
    | OpRetry(task: TaskId)
    | OpCancel(task: TaskId)
    | OpPause(task: TaskId)
    | OpResume(task: TaskId)
    | OpReleasePlanned(task: TaskId)
    | OpComplete(task: TaskId, integrated: bool)
    | OpOpen(task: TaskId)
    | OpExpireOpen(cutoff: Time, within: Option<string>)

  function Call(s: Store, op: Op): (bool, Store) {
    match op
    case Tick(elapsed) => (true, s.(now := s.now + elapsed))
    case OpSubmit(row, planOnly) => (true, Submit(s, row, planOnly))
    case OpLease(named, request) => LeaseNext(s, named, request)
    case OpClaimQueue(repository, project) => (true, ClaimQueue(s, repository, project))
    case OpHeartbeat(l, ttl) => Heartbeat(s, l, ttl)
    case OpFinish(l, how) => FinishLease(s, l, how)
    case OpExpire => (true, ExpireLeases(s))
    case OpRetry(t) => Retry(s, t)
    case OpCancel(t) => Cancel(s, t)
    case OpPause(t) => Pause(s, t)
    case OpResume(t) => Resume(s, t)
    case OpReleasePlanned(t) => ReleasePlanned(s, t)
    case OpComplete(t, integrated) => Complete(s, t, integrated)
    case OpOpen(t) => OpenTask(s, t)
    case OpExpireOpen(cutoff, repository) => (true, ExpireOpen(s, cutoff, repository))
  }

  function Run(s: Store, ops: seq<Op>): Store {
    if ops == [] then s else Call(Run(s, ops[..|ops| - 1]), ops[|ops| - 1]).1
  }

  ghost predicate Reaches(s: Store, t: Store) {
    exists ops :: Run(s, ops) == t
  }

  // ----- The life of one row

  /** Which operation moves a row from where to where; everything else leaves the row as it is. */
  predicate Moves(op: Op, t: TaskId, from: Status, to: Status) {
    match op
    case Tick(_) => false
    case OpHeartbeat(_, _) => false
    case OpSubmit(_, _) => from.Open? && to.Integrated?
    case OpLease(named, _) =>
      || (from.Claimed? && to.Submitted?)
      || (Agrees(named, t) && to.Claimed? && (from.Submitted? || from.Claimed?))
    case OpClaimQueue(_, _) => from.Submitted? && to.Claimed?
    case OpFinish(_, how) => from.Claimed? && to.Submitted? && (how.Released? || how.Expired?)
    case OpExpire => from.Claimed? && to.Submitted?
    case OpRetry(u) => u == t && (from.Claimed? || from.Failed?) && to.Submitted?
    case OpCancel(u) => u == t && !IsOver(from) && to.Cancelled?
    case OpPause(u) => u == t && (from.Submitted? || from.Claimed?) && to.Paused?
    case OpResume(u) => u == t && from.Paused? && to.Submitted?
    case OpReleasePlanned(u) => u == t && from.Planned? && to.Submitted?
    case OpComplete(u, integrated) => u == t && from.Claimed? && (if integrated then to.Integrated? else to.Failed?)
    case OpOpen(u) => u == t && from.Claimed? && to.Open?
    case OpExpireOpen(_, _) => from.Open? && to.Integrated?
  }

  lemma {:induction false} ExpiryMoves(s: Store, n: nat, t: TaskId)
    requires t < |s.rows| && n <= |s.leases|
    ensures var r := ExpireFirst(s, n).rows[t];
            r == s.rows[t] || (s.rows[t].status.Claimed? && r == s.rows[t].(status := Submitted, claimedAt := None))
    decreases n
  {
    if n > 0 {
      ExpiryMoves(s, n - 1, t);
    }
  }

  /** Every operation moves a row along the table above or leaves it exactly as it was; rows and
      leases are never dropped, a lease never changes hands and never comes back to life. */
  lemma StepMoves(s: Store, op: Op)
    ensures var s' := Call(s, op).1;
            && |s'.rows| >= |s.rows| && |s'.leases| >= |s.leases| && s'.now >= s.now
            && (forall t :: 0 <= t < |s.rows| ==>
                  && s'.rows[t].kind == s.rows[t].kind
                  && (s'.rows[t] == s.rows[t] || Moves(op, t, s.rows[t].status, s'.rows[t].status)))
  {
    var s' := Call(s, op).1;
    forall t | 0 <= t < |s.rows|
      ensures s'.rows[t].kind == s.rows[t].kind
      ensures s'.rows[t] == s.rows[t] || Moves(op, t, s.rows[t].status, s'.rows[t].status)
    {
      ExpiryMoves(s, |s.leases|, t);
    }
  }

  /** The statuses a call on one task is taken from. */
  function TakenFrom(op: Op): set<Status> {
    match op
    case OpRetry(_) => {Claimed, Failed}
    case OpCancel(_) => {Submitted, Claimed, Paused, Open, Planned}
    case OpPause(_) => {Submitted, Claimed}
    case OpResume(_) => {Paused}
    case OpReleasePlanned(_) => {Planned}
    case OpComplete(_, _) => {Claimed}
    case OpOpen(_) => {Claimed}
    case _ => {}
  }

  predicate IsOfOneTask(op: Op) {
    op.OpRetry? || op.OpCancel? || op.OpPause? || op.OpResume? || op.OpReleasePlanned? || op.OpComplete? || op.OpOpen?
  }

  /** A call on one task is taken exactly from those, moves the row as the table says, and nothing else. */
  lemma CallIsTakenIff(s: Store, op: Op)
    requires IsOfOneTask(op)
    ensures var (taken, s') := Call(s, op);
            && (taken <==> op.task < |s.rows| && s.rows[op.task].status in TakenFrom(op))
            && (!taken ==> s' == s)
            && (taken ==>
                  && s'.now == s.now && s'.leases == s.leases && |s'.rows| == |s.rows|
                  && Moves(op, op.task, s.rows[op.task].status, s'.rows[op.task].status)
                  && (op.OpRetry? || op.OpResume? ==> s'.rows[op.task].claimedAt.None?)
                  && (op.OpOpen? ==> s'.rows[op.task].openedAt == s.now)
                  && forall u :: 0 <= u < |s.rows| && u != op.task ==> s'.rows[u] == s.rows[u])
  {
  }

  /** A new task joins the queue, or the planned, and settles the conversation it goes on with. */
  lemma SubmissionJoins(s: Store, row: Row, planOnly: bool)
    ensures var s' := Submit(s, row, planOnly);
            && |s'.rows| == |s.rows| + 1 && s'.leases == s.leases && s'.now == s.now
            && s'.rows[|s.rows|] == row.(status := if planOnly then Planned else Submitted, claimedAt := None)
            && forall t :: 0 <= t < |s.rows| ==>
                 s'.rows[t] == if s.rows[t].status == Open && row.conversation.Some? && s.rows[t].conversation == row.conversation
                               then s.rows[t].(status := Integrated) else s.rows[t]
  {
  }

  /** What may be leased: queued work, asked for, of nobody excluded, with nothing unfinished before it, in
      a repository with room. */
  lemma EligibleIff(s: Store, t: TaskId, r: LeaseRequest)
    ensures IsEligible(s, t, r)
            <==> && t < |s.rows| && s.rows[t].status == Submitted && s.rows[t].kind.Work?
                 && !(s.rows[t].after.Some? && s.rows[t].after.value < |s.rows|
                      && s.rows[s.rows[t].after.value].status in {Submitted, Claimed, Planned, Paused})
                 && (r.repository.Some? ==> s.rows[t].repository == r.repository.value)
                 && (r.project.Some? ==> s.rows[t].project == r.project.value)
                 && (s.rows[t].submitter.Some? ==> s.rows[t].submitter.value !in r.excluded)
                 && |ActiveLeases(s.leases, s.rows[t].repository)| < r.parallelism
  {
    if t < |s.rows| {
      ActiveAreCounted(s.leases, s.rows[t].repository);
    }
  }

  function ActiveLeases(leases: seq<WorkLease>, repository: string): set<int> {
    set l | 0 <= l < |leases| && leases[l].status.Active? && leases[l].repository == repository
  }

  lemma {:induction false} ActiveAreCounted(leases: seq<WorkLease>, repository: string)
    ensures ActiveIn(leases, repository) == |ActiveLeases(leases, repository)|
    decreases |leases|
  {
    if leases == [] {
      assert ActiveLeases([], repository) == {};
    } else {
      var init, last := leases[..|leases| - 1], leases[|leases| - 1];
      ActiveAreCounted(init, repository);
      assert ActiveLeases(leases, repository)
          == ActiveLeases(init, repository) + if last.status.Active? && last.repository == repository then {|init|} else {};
    }
  }

  /** A leased task is claimed now, by a lease of the asker's that runs for the time asked. */
  lemma LeasingClaims(s: Store, t: TaskId, r: LeaseRequest)
    requires t < |s.rows|
    ensures var s' := Leased(s, t, r);
            && s'.now == s.now && |s'.rows| == |s.rows| && |s'.leases| == |s.leases| + 1
            && s'.leases[..|s.leases|] == s.leases
            && s'.rows[t] == s.rows[t].(status := Claimed, claimedAt := Some(s.now))
            && s'.leases[|s.leases|] == WorkLease(t, r.worker, s.rows[t].repository, Active, s.now + r.ttl)
            && forall u :: 0 <= u < |s.rows| && u != t ==> s'.rows[u] == s.rows[u]
  {
  }

  /** A heartbeat keeps alive exactly a lease that has not lapsed, for as long as it asks. */
  lemma HeartbeatIff(s: Store, l: LeaseId, ttl: nat)
    ensures var (taken, s') := Heartbeat(s, l, ttl);
            && (taken <==> l < |s.leases| && s.leases[l].status == Active && s.leases[l].expiresAt > s.now && ttl > 0)
            && (!taken ==> s' == s)
            && (taken ==>
                  && s'.rows == s.rows && s'.now == s.now && |s'.leases| == |s.leases|
                  && s'.leases[l] == s.leases[l].(expiresAt := s.now + ttl)
                  && forall m :: 0 <= m < |s.leases| && m != l ==> s'.leases[m] == s.leases[m])
  {
  }

  /** A lease is ended by whoever holds it while it runs, and by the sweep once it has lapsed, as asked. */
  lemma FinishIsTakenIff(s: Store, l: LeaseId, how: Ending)
    ensures var (taken, s') := FinishLease(s, l, how);
            && (taken <==> l < |s.leases| && s.leases[l].status == Active && (how == Expired <==> s.leases[l].expiresAt <= s.now))
            && (!taken ==> s' == s)
            && (taken ==>
                  && |s'.leases| == |s.leases| && s'.leases[l] == s.leases[l].(status := Ended(how))
                  && (forall m :: 0 <= m < |s.leases| && m != l ==> s'.leases[m] == s.leases[m])
                  && |s'.rows| == |s.rows|
                  && forall t :: 0 <= t < |s.rows| ==>
                       s'.rows[t] == if t == s.leases[l].task && s.rows[t].status == Claimed && how in {Released, Expired}
                                     then s.rows[t].(status := Submitted, claimedAt := None) else s.rows[t])
  {
  }

  /** The sweep returns to the queue exactly the claimed tasks with a lease that had lapsed. */
  lemma {:induction false} ExpiryRequeuesIff(s: Store, n: nat, t: TaskId)
    requires t < |s.rows| && n <= |s.leases|
    ensures ExpireFirst(s, n).rows[t]
            == if s.rows[t].status == Claimed && exists l :: 0 <= l < n && Holds(s.leases[l], t) && s.leases[l].expiresAt <= s.now
               then s.rows[t].(status := Submitted, claimedAt := None) else s.rows[t]
    decreases n
  {
    if n > 0 {
      ExpiryRequeuesIff(s, n - 1, t);
      ExpiryEnds(s, n - 1, n - 1);
      hide ExpireFirst;
      FinishIsTakenIff(ExpireFirst(s, n - 1), n - 1, Expired);
    }
  }

  /** Claiming a queue takes all of it that could be claimed, and ending silent conversations just those. */
  lemma WholeTableCalls(s: Store, repository: string, project: string, cutoff: Time, within: Option<string>, t: TaskId)
    requires t < |s.rows|
    ensures var r := ClaimQueue(s, repository, project);
            && |r.rows| == |s.rows| && r.leases == s.leases && r.now == s.now
            && r.rows[t] == if s.rows[t].status == Submitted && !IsHeldBack(s, t) && s.rows[t].kind.Work?
                               && s.rows[t].repository == repository && s.rows[t].project == project
                            then s.rows[t].(status := Claimed, claimedAt := Some(s.now)) else s.rows[t]
    ensures var r := ExpireOpen(s, cutoff, within);
            && |r.rows| == |s.rows| && r.leases == s.leases && r.now == s.now
            && r.rows[t] == if s.rows[t].status == Open && s.rows[t].openedAt <= cutoff
                               && (within.Some? ==> s.rows[t].repository == within.value)
                            then s.rows[t].(status := Integrated) else s.rows[t]
  {
  }

  lemma {:induction false} ExpiryEnds(s: Store, n: nat, l: LeaseId)
    requires l < |s.leases| && n <= |s.leases|
    ensures var r := ExpireFirst(s, n).leases[l];
            r == if l < n && IsActive(s, l) && IsLapsed(s, l) then s.leases[l].(status := Ended(Expired)) else s.leases[l]
    decreases n
  {
    if n > 0 {
      ExpiryEnds(s, n - 1, l);
      if n - 1 < |s.leases| {
        ExpiryEnds(s, n - 1, n - 1);
      }
    }
  }

  /** An ended or lapsed lease stays so, and a lease never changes hands. */
  lemma StepKeepsLease(s: Store, op: Op, l: LeaseId)
    requires l < |s.leases|
    ensures var s' := Call(s, op).1;
            && l < |s'.leases| && s'.leases[l].task == s.leases[l].task && s'.leases[l].worker == s.leases[l].worker
            && (!IsActive(s, l) ==> s'.leases[l] == s.leases[l])
            && (IsLapsed(s, l) ==> IsLapsed(s', l))
  {
    ExpiryEnds(s, |s.leases|, l);
  }

  lemma RunOne(s: Store, ops: seq<Op>, op: Op)
    ensures Run(s, ops + [op]) == Call(Run(s, ops), op).1
  {
    assert (ops + [op])[..|ops|] == ops;
  }

  lemma {:induction false} RunSplits(s: Store, a: seq<Op>, b: seq<Op>)
    ensures Run(s, a + b) == Run(Run(s, a), b)
    decreases |b|
  {
    hide Call;
    if b == [] {
      assert a + b == a;
    } else {
      RunSplits(s, a, b[..|b| - 1]);
      assert (a + b)[..|a + b| - 1] == a + b[..|b| - 1];
    }
  }

  lemma ReachesSelf(s: Store)
    ensures Reaches(s, s)
  {
    assert Run(s, []) == s;
  }

  lemma ReachesThrough(a: Store, b: Store, c: Store)
    requires Reaches(a, b) && Reaches(b, c)
    ensures Reaches(a, c)
  {
    hide Call;
    var x :| Run(a, x) == b;
    var y :| Run(b, y) == c;
    RunSplits(a, x, y);
  }

  lemma ReachesStep(a: Store, b: Store, op: Op)
    requires Reaches(a, b)
    ensures Reaches(a, Call(b, op).1)
  {
    hide Call;
    var x :| Run(a, x) == b;
    RunOne(a, x, op);
  }

  /** Cancelled and integrated rows are never touched again, by any interleaving whatever. */
  lemma {:induction false} OverSticks(s: Store, ops: seq<Op>, t: TaskId)
    requires t < |s.rows| && (s.rows[t].status.Cancelled? || s.rows[t].status.Integrated?)
    ensures t < |Run(s, ops).rows| && Run(s, ops).rows[t] == s.rows[t]
    decreases |ops|
  {
    hide Call;
    if ops != [] {
      OverSticks(s, ops[..|ops| - 1], t);
      StepMoves(Run(s, ops[..|ops| - 1]), ops[|ops| - 1]);
    }
  }

  predicate Touches(ops: seq<Op>, t: TaskId) {
    exists i :: 0 <= i < |ops| && (ops[i] == OpResume(t) || ops[i] == OpCancel(t))
  }

  /** A paused row leaves `paused` only by a resume or a cancel of that task, whatever else happens. */
  lemma {:induction false} PausedSticks(s: Store, ops: seq<Op>, t: TaskId)
    requires t < |s.rows| && s.rows[t].status.Paused? && !Touches(ops, t)
    ensures t < |Run(s, ops).rows| && Run(s, ops).rows[t] == s.rows[t]
    decreases |ops|
  {
    hide Call;
    if ops != [] {
      var init := ops[..|ops| - 1];
      assert forall i :: 0 <= i < |init| ==> init[i] == ops[i];
      PausedSticks(s, init, t);
      StepMoves(Run(s, init), ops[|ops| - 1]);
      assert ops[|ops| - 1] != OpResume(t) && ops[|ops| - 1] != OpCancel(t);
    }
  }

  lemma {:induction false} TablesGrow(s: Store, ops: seq<Op>)
    ensures |Run(s, ops).rows| >= |s.rows| && |Run(s, ops).leases| >= |s.leases| && Run(s, ops).now >= s.now
    ensures forall t :: 0 <= t < |s.rows| ==> Run(s, ops).rows[t].kind == s.rows[t].kind
    decreases |ops|
  {
    hide Call;
    if ops != [] {
      TablesGrow(s, ops[..|ops| - 1]);
      StepMoves(Run(s, ops[..|ops| - 1]), ops[|ops| - 1]);
    }
  }

  lemma {:induction false} LeaseSticks(s: Store, ops: seq<Op>, l: LeaseId)
    requires l < |s.leases|
    ensures var s' := Run(s, ops);
            && l < |s'.leases| && s'.leases[l].task == s.leases[l].task && s'.leases[l].worker == s.leases[l].worker
            && (!IsActive(s, l) ==> s'.leases[l] == s.leases[l])
            && (IsLapsed(s, l) ==> IsLapsed(s', l))
    decreases |ops|
  {
    hide Call;
    if ops != [] {
      LeaseSticks(s, ops[..|ops| - 1], l);
      StepKeepsLease(Run(s, ops[..|ops| - 1]), ops[|ops| - 1], l);
    }
  }

  // ----- One runner for each task

  /** No two active leases on one task, and none on a task that could be leased again. */
  ghost predicate OneRunner(s: Store) {
    && (forall l :: 0 <= l < |s.leases| && s.leases[l].status.Active? ==>
          s.leases[l].task < |s.rows|
          && !s.rows[s.leases[l].task].status.Submitted? && !s.rows[s.leases[l].task].status.Planned?)
    && (forall l, m :: 0 <= l < m < |s.leases| && s.leases[l].status.Active? && s.leases[m].status.Active? ==>
          s.leases[l].task != s.leases[m].task)
  }

  /** Puts a task back in the queue without looking at its lease. */
  predicate RequeuesUnseen(s: Store, op: Op, t: TaskId) {
    (op == OpRetry(t) && Retry(s, t).0) || (op == OpResume(t) && Resume(s, t).0)
  }

  lemma FinishKeepsOneRunner(s: Store, l: LeaseId, how: Ending)
    requires OneRunner(s)
    ensures OneRunner(FinishLease(s, l, how).1)
  {
  }

  lemma {:induction false} ExpiryKeepsOneRunner(s: Store, n: nat)
    requires OneRunner(s) && n <= |s.leases|
    ensures OneRunner(ExpireFirst(s, n))
    decreases n
  {
    hide OneRunner, FinishLease;
    if n > 0 {
      ExpiryKeepsOneRunner(s, n - 1);
      FinishKeepsOneRunner(ExpireFirst(s, n - 1), n - 1, Expired);
    }
  }

  lemma LeaseKeepsOneRunner(s: Store, named: Option<TaskId>, r: LeaseRequest)
    requires OneRunner(s)
    ensures OneRunner(LeaseNext(s, named, r).1)
  {
    hide ExpireFirst, ActiveIn, OldestEligible, IsHeldBack;
    ExpiryKeepsOneRunner(s, |s.leases|);
  }

  lemma OtherStepsKeepOneRunner(s: Store, op: Op)
    requires OneRunner(s) && !op.OpRetry? && !op.OpResume? && !op.OpLease? && !op.OpFinish? && !op.OpExpire?
    ensures OneRunner(Call(s, op).1)
  {
    hide ExpireFirst, IsHeldBack;
  }

  /** Every operation keeps one runner for each task, except that putting a task back in the queue by
      retry or resume does so exactly when no lease on it is still active. */
  lemma OneRunnerKeptIff(s: Store, op: Op)
    requires OneRunner(s)
    ensures OneRunner(Call(s, op).1) <==> forall t :: RequeuesUnseen(s, op, t) ==> !IsLeased(s, t)
  {
    hide ExpireFirst, OneRunner, IsLeased, LeaseNext, FinishLease;
    match op
    case OpLease(named, request) => LeaseKeepsOneRunner(s, named, request);
    case OpFinish(l, how) => FinishKeepsOneRunner(s, l, how);
    case OpExpire => ExpiryKeepsOneRunner(s, |s.leases|);
    case OpRetry(t) => RequeueKeepsOneRunnerIff(s, t); assert Retry(s, t).0 ==> RequeuesUnseen(s, op, t);
    case OpResume(t) => RequeueKeepsOneRunnerIff(s, t); assert Resume(s, t).0 ==> RequeuesUnseen(s, op, t);
    case _ => OtherStepsKeepOneRunner(s, op);
  }

  lemma RequeueKeepsOneRunnerIff(s: Store, t: TaskId)
    requires OneRunner(s)
    ensures t < |s.rows| ==> (OneRunner(Requeued(s, t)) <==> !IsLeased(s, t))
  {
    if t < |s.rows| && IsLeased(s, t) {
      var l :| 0 <= l < |s.leases| && Holds(s.leases[l], t);
      assert Requeued(s, t).leases[l].task == t;
    }
  }

  /** What that costs. A pause flips the row first and releases the lease after; resumed and leased
      again in between, the task is put back in the queue by the late release while it runs. */
  lemma LateReleaseRequeuesARunningTask(s: Store, t: TaskId, l: LeaseId, r: LeaseRequest)
    requires HasStatus(s, t, Claimed) && l < |s.leases| && Holds(s.leases[l], t)
    requires NoneLapsed(s)
    requires IsEligible(Resume(Pause(s, t).1, t).1, t, r)
    ensures var resumed := Resume(Pause(s, t).1, t).1;
            var (again, running) := LeaseNext(resumed, Some(t), r);
            var (released, end) := FinishLease(running, l, Released);
            && again && released && HasStatus(running, t, Claimed) && HasStatus(end, t, Submitted)
            && IsActive(end, |s.leases|) && end.leases[|s.leases|].task == t
  {
    hide ExpireFirst, IsEligible;
    var resumed := Resume(Pause(s, t).1, t).1;
    NothingToExpire(resumed, |resumed.leases|);
  }

  lemma {:induction false} NothingToExpire(s: Store, n: nat)
    requires n <= |s.leases| && NoneLapsed(s)
    ensures ExpireFirst(s, n) == s
    decreases n
  {
    if n > 0 {
      NothingToExpire(s, n - 1);
    }
  }

  /** Releasing a lease requeues its task exactly when the row is claimed at that moment. */
  lemma ReleaseRequeuesIff(s: Store, l: LeaseId, t: TaskId)
    requires IsActive(s, l) && !IsLapsed(s, l) && s.leases[l].task == t && t < |s.rows|
    ensures var (taken, s') := FinishLease(s, l, Released);
            && taken && !IsActive(s', l)
            && (HasStatus(s', t, Submitted) <==> HasStatus(s, t, Claimed) || HasStatus(s, t, Submitted))
            && (forall u :: 0 <= u < |s.rows| && u != t ==> s'.rows[u] == s.rows[u])
            && (!HasStatus(s, t, Claimed) ==> s'.rows == s.rows)
  {
  }

  /** A row that has moved on is refused a requeue, unless what happened to it is that its run failed. */
  lemma RetryRefusesMovedOn(s: Store, t: TaskId)
    requires HasStatus(s, t, Claimed)
    ensures !Retry(Complete(s, t, true).1, t).0 && !Retry(Cancel(s, t).1, t).0
    ensures !Retry(Pause(s, t).1, t).0 && !Retry(OpenTask(s, t).1, t).0
    ensures var (taken, s') := Retry(Complete(s, t, false).1, t); taken && HasStatus(s', t, Submitted)
  {
  }
}
