/** Stopping, parking and settling tasks while everybody else keeps using the same store.

Every store call here is one operation followed by whatever the other processes do before the next
one: `Others` stands for them, and is known only to take the store along some run of operations.
What is promised of a sweep is therefore promised of every interleaving.
*/
module ControlPlane {
  import opened Optional
  import opened TaskStore

  datatype Was = WasRunning | WasQueued | WasHeld | WasWaiting

  datatype Report = Report(id: TaskId, was: Was)

  /** Which tasks to cancel: exactly those named, or a sweep of what is running, queued or planned. */
  datatype Sweep = Sweep(
    repository: string,
    project: Option<string>,
    wanted: Option<set<TaskId>>,
    agent: Option<string>,
    submitter: Option<string>)

  function WasOf(status: Status): Was {
    match status
    case Claimed => WasRunning
    case Planned => WasHeld
    case Paused => WasHeld
    case Open => WasWaiting
    case _ => WasQueued
  }

  predicate InScope(repository: string, project: Option<string>, row: Row) {
    row.kind.Work? && row.repository == repository && Agrees(project, row.project)
  }

  predicate IsCancelCandidate(sweep: Sweep, t: TaskId, row: Row) {
    && InScope(sweep.repository, sweep.project, row) && !IsOver(row.status)
    && if sweep.wanted.Some? then t in sweep.wanted.value
       else !row.status.Open? && !row.status.Paused? && Agrees(sweep.agent, row.agent)
            && (sweep.submitter.Some? ==> row.submitter == sweep.submitter)
  }

  predicate IsPauseCandidate(repository: string, project: Option<string>, wanted: set<TaskId>, t: TaskId, row: Row) {
    InScope(repository, project, row) && t in wanted && (row.status.Submitted? || row.status.Claimed?)
  }

  predicate IsResumeCandidate(repository: string, project: Option<string>, wanted: set<TaskId>, t: TaskId, row: Row) {
    InScope(repository, project, row) && t in wanted && row.status.Paused?
  }

  predicate IsReapCandidate(claimedBefore: Time, row: Row) {
    row.kind.Work? && row.status.Claimed? && (row.claimedAt.Some? ==> row.claimedAt.value < claimedBefore)
  }

  datatype Filter =
    | ToCancel(sweep: Sweep)
    | ToPause(repository: string, project: Option<string>, wanted: set<TaskId>)
    | ToResume(repository: string, project: Option<string>, wanted: set<TaskId>)
    | ToReap(claimedBefore: Time)
    | ToRun
    | ToFail(claimed: set<TaskId>)

  predicate Keeps(f: Filter, t: TaskId, row: Row) {
    match f
    case ToCancel(sweep) => IsCancelCandidate(sweep, t, row)
    case ToPause(repository, project, wanted) => IsPauseCandidate(repository, project, wanted, t, row)
    case ToResume(repository, project, wanted) => IsResumeCandidate(repository, project, wanted, t, row)
    case ToReap(claimedBefore) => IsReapCandidate(claimedBefore, row)
    case ToRun => row.kind.Work? && row.status.Submitted?
    case ToFail(claimed) => row.kind.Work? && row.status.Claimed? && t in claimed
  }

  /** The rows that a filter keeps, oldest first. */
  function Listing(rows: seq<Row>, f: Filter): seq<TaskId> {
    if rows == [] then []
    else
      var last: TaskId := |rows| - 1;
      Listing(rows[..last], f) + if Keeps(f, last, rows[last]) then [last] else []
  }

  ghost predicate Increasing(ids: seq<nat>) {
    forall i, j :: 0 <= i < j < |ids| ==> ids[i] < ids[j]
  }

  /** A listing holds exactly the rows kept, each once, oldest first. */
  lemma {:induction false} ListingIsExact(rows: seq<Row>, f: Filter)
    ensures forall t: TaskId :: t in Listing(rows, f) <==> t < |rows| && Keeps(f, t, rows[t])
    ensures Increasing(Listing(rows, f))
    decreases |rows|
  {
    hide Keeps, Increasing;
    if rows != [] {
      var init, last: TaskId := rows[..|rows| - 1], |rows| - 1;
      ListingIsExact(init, f);
      IncreasingOne(Listing(init, f), last);
      assert Listing(rows, f) == Listing(init, f) + if Keeps(f, last, rows[last]) then [last] else [];
      hide Listing;
      forall t: TaskId ensures t in Listing(rows, f) <==> t < |rows| && Keeps(f, t, rows[t]) {
        assert t < last ==> init[t] == rows[t];
      }
    } else {
      NothingIncreases();
    }
  }

  /** Who is stopped, parked, brought back or reaped, by what is on their rows. A sweep that names nobody
      reaches what is queued, running or planned; open conversations and parked work it leaves alone. */
  predicate MayStop(sweep: Sweep, t: TaskId, row: Row) {
    && row.kind.Work? && row.repository == sweep.repository && (sweep.project.Some? ==> row.project == sweep.project.value)
    && match sweep.wanted
       case Some(named) => t in named && row.status in {Submitted, Claimed, Planned, Paused, Open}
       case None =>
         && row.status in {Submitted, Claimed, Planned}
         && (sweep.agent.Some? ==> row.agent == sweep.agent.value)
         && (sweep.submitter.Some? ==> row.submitter == Some(sweep.submitter.value))
  }

  predicate MayPark(repository: string, project: Option<string>, wanted: set<TaskId>, t: TaskId, row: Row) {
    && row.kind.Work? && row.repository == repository && (project.Some? ==> row.project == project.value)
    && t in wanted && row.status in {Submitted, Claimed}
  }

  predicate MayReturn(repository: string, project: Option<string>, wanted: set<TaskId>, t: TaskId, row: Row) {
    && row.kind.Work? && row.repository == repository && (project.Some? ==> row.project == project.value)
    && t in wanted && row.status == Paused
  }

  lemma CandidatesAre(rows: seq<Row>, sweep: Sweep, repository: string, project: Option<string>, wanted: set<TaskId>,
                      claimedBefore: Time, t: TaskId)
    ensures t in Listing(rows, ToCancel(sweep)) <==> t < |rows| && MayStop(sweep, t, rows[t])
    ensures t in Listing(rows, ToPause(repository, project, wanted))
            <==> t < |rows| && MayPark(repository, project, wanted, t, rows[t])
    ensures t in Listing(rows, ToResume(repository, project, wanted))
            <==> t < |rows| && MayReturn(repository, project, wanted, t, rows[t])
    ensures t in Listing(rows, ToReap(claimedBefore))
            <==> t < |rows| && rows[t].kind.Work? && rows[t].status == Claimed
                 && (rows[t].claimedAt.Some? ==> rows[t].claimedAt.value < claimedBefore)
    ensures t in Listing(rows, ToRun) <==> t < |rows| && rows[t].kind.Work? && rows[t].status == Submitted
  {
    hide Listing;
    ListingIsExact(rows, ToCancel(sweep));
    ListingIsExact(rows, ToPause(repository, project, wanted));
    ListingIsExact(rows, ToResume(repository, project, wanted));
    ListingIsExact(rows, ToReap(claimedBefore));
    ListingIsExact(rows, ToRun);
  }

  /** The rows with some tasks in another status. */
  function Flipped(rows: seq<Row>, tasks: seq<TaskId>, status: Status): (r: seq<Row>)
    ensures |r| == |rows|
    ensures forall t :: 0 <= t < |rows| ==> r[t] == if t in tasks then rows[t].(status := status) else rows[t]
  {
    seq(|rows|, t requires 0 <= t < |rows| => if t in tasks then rows[t].(status := status) else rows[t])
  }

  /** Undisturbed, a stop has so far moved just the first of its tasks. */
  ghost predicate HasFlipped(start: Store, s: Store, tasks: seq<TaskId>, k: nat, reported: seq<TaskId>, status: Status) {
    k <= |tasks| && reported == tasks[..k] && s.rows == Flipped(start.rows, reported, status)
  }

  lemma FlippedOne(start: Store, s: Store, tasks: seq<TaskId>, k: nat, reported: seq<TaskId>, status: Status, next: Store)
    requires HasFlipped(start, s, tasks, k, reported, status)
    requires Increasing(tasks) && k < |tasks| && tasks[k] < |start.rows|
    requires next.rows == s.rows[tasks[k] := s.rows[tasks[k]].(status := status)]
    ensures s.rows[tasks[k]] == start.rows[tasks[k]]
    ensures HasFlipped(start, next, tasks, k + 1, reported + [tasks[k]], status)
  {
    assert tasks[..k + 1] == tasks[..k] + [tasks[k]];
    assert tasks[k] !in tasks[..k];
  }

  /** So the next is taken as it was found. */
  lemma CancelsOne(start: Store, s: Store, sweep: Sweep, k: nat, reported: seq<TaskId>)
    requires var tasks := Listing(start.rows, ToCancel(sweep));
             k < |tasks| && HasFlipped(start, s, tasks, k, reported, Cancelled)
    ensures var tasks := Listing(start.rows, ToCancel(sweep));
            Cancel(s, tasks[k]).0 && HasFlipped(start, Cancel(s, tasks[k]).1, tasks, k + 1, reported + [tasks[k]], Cancelled)
  {
    hide Listing;
    var tasks := Listing(start.rows, ToCancel(sweep));
    ListingIsExact(start.rows, ToCancel(sweep));
    assert tasks[k] in tasks;
    FlippedOne(start, s, tasks, k, reported, Cancelled, WithStatus(s, tasks[k], Cancelled));
  }

  lemma PausesOne(start: Store, s: Store, repository: string, project: Option<string>, wanted: set<TaskId>, k: nat,
                  reported: seq<TaskId>)
    requires var tasks := Listing(start.rows, ToPause(repository, project, wanted));
             k < |tasks| && HasFlipped(start, s, tasks, k, reported, Paused)
    ensures var tasks := Listing(start.rows, ToPause(repository, project, wanted));
            Pause(s, tasks[k]).0 && HasFlipped(start, Pause(s, tasks[k]).1, tasks, k + 1, reported + [tasks[k]], Paused)
  {
    hide Listing;
    var tasks := Listing(start.rows, ToPause(repository, project, wanted));
    ListingIsExact(start.rows, ToPause(repository, project, wanted));
    assert tasks[k] in tasks;
    FlippedOne(start, s, tasks, k, reported, Paused, WithStatus(s, tasks[k], Paused));
  }

  lemma ResumesOne(start: Store, s: Store, repository: string, project: Option<string>, wanted: set<TaskId>, k: nat)
    requires var tasks := Listing(start.rows, ToResume(repository, project, wanted));
             k < |tasks| && s == Swept(start, tasks[..k])
    ensures var tasks := Listing(start.rows, ToResume(repository, project, wanted));
            Resume(s, tasks[k]) == (true, Swept(start, tasks[..k] + [tasks[k]]))
  {
    hide Listing;
    var tasks := Listing(start.rows, ToResume(repository, project, wanted));
    ListingIsExact(start.rows, ToResume(repository, project, wanted));
    var t := tasks[k];
    assert t in tasks && t !in tasks[..k];
    assert Resume(s, t).1.rows == Swept(start, tasks[..k] + [t]).rows;
  }

  lemma IncreasingOne(ids: seq<nat>, last: nat)
    requires Increasing(ids) && forall t :: t in ids ==> t < last
    ensures Increasing(ids + [last]) && Increasing(ids + [])
  {
    assert forall k :: 0 <= k < |ids| ==> ids[k] in ids;
  }

  lemma NothingIncreases()
    ensures Increasing([])
  {
  }

  /** The newest active lease on a task in a repository: listings of leases begin with the newest. */
  function NewestActive(leases: seq<WorkLease>, repository: string, t: TaskId): (r: Option<LeaseId>)
    ensures r.Some? ==> r.value < |leases| && Holds(leases[r.value], t) && leases[r.value].repository == repository
    ensures forall l :: (if r.Some? then r.value + 1 else 0) <= l < |leases|
                        ==> !(Holds(leases[l], t) && leases[l].repository == repository)
  {
    if leases == [] then None
    else
      var last := |leases| - 1;
      if Holds(leases[last], t) && leases[last].repository == repository then Some(last)
      else NewestActive(leases[..last], repository, t)
  }

  /** The leases a sweep looks at: none where nothing it listed was running. */
  function LeasesToRelease(listed: seq<Row>, tasks: seq<TaskId>, leases: seq<WorkLease>): (r: seq<WorkLease>)
    requires forall t :: t in tasks ==> t < |listed|
    ensures if exists t :: t in tasks && listed[t].status.Claimed? then r == leases else r == []
  {
    if exists t :: t in tasks && listed[t].status.Claimed? then leases else []
  }

  // ----- What can be said across interleavings

  const OVER := {Integrated, Failed, Cancelled}
  const NOT_PAUSABLE := OVER + {Paused, Open, Planned}
  const NOT_PAUSED := OVER + {Submitted, Claimed, Open, Planned}
  const NOT_RETRYABLE := {Submitted, Paused, Open, Planned, Integrated, Cancelled}
  const NOT_CLAIMED := OVER + {Submitted, Paused, Open, Planned}

  /** At some point between the two, the row was in one of these statuses. */
  ghost predicate PassedThrough(a: Store, b: Store, t: TaskId, statuses: set<Status>) {
    exists mid :: IsBetween(a, mid, b) && StatusIn(mid, t, statuses)
  }

  ghost predicate IsBetween(a: Store, mid: Store, b: Store) {
    Reaches(a, mid) && Reaches(mid, b)
  }

  predicate StatusIn(s: Store, t: TaskId, statuses: set<Status>) {
    t < |s.rows| && s.rows[t].status in statuses
  }

  /** Of the tasks gone through, the reported ones were moved as reported, and each of the others was
      refused, its row being elsewhere at that moment. */
  ghost predicate Tried(a: Store, b: Store, done: seq<TaskId>, reported: seq<TaskId>, taken: set<Status>, refused: set<Status>) {
    && Reaches(a, b)
    && (forall t :: t in reported ==> t in done && PassedThrough(a, b, t, taken))
    && (forall t :: t in done && t !in reported ==> PassedThrough(a, b, t, refused))
  }

  lemma PassedStays(a: Store, b: Store, c: Store, t: TaskId, statuses: set<Status>)
    requires PassedThrough(a, b, t, statuses) && Reaches(b, c)
    ensures PassedThrough(a, c, t, statuses)
  {
    var mid :| IsBetween(a, mid, b) && StatusIn(mid, t, statuses);
    ReachesThrough(mid, b, c);
    assert IsBetween(a, mid, c);
  }

  lemma TriedStays(a: Store, b: Store, c: Store, done: seq<TaskId>, reported: seq<TaskId>, taken: set<Status>,
                   refused: set<Status>)
    requires Tried(a, b, done, reported, taken, refused) && Reaches(b, c)
    ensures Tried(a, c, done, reported, taken, refused)
  {
    hide Reaches;
    ReachesThrough(a, b, c);
    forall t | t in reported ensures PassedThrough(a, c, t, taken) {
      PassedStays(a, b, c, t, taken);
    }
    forall t | t in done && t !in reported ensures PassedThrough(a, c, t, refused) {
      PassedStays(a, b, c, t, refused);
    }
  }

  lemma TriedRows(a: Store, b: Store, done: seq<TaskId>, reported: seq<TaskId>, taken: set<Status>, refused: set<Status>)
    requires Tried(a, b, done, reported, taken, refused)
    ensures Reaches(a, b) && |b.rows| >= |a.rows|
  {
    StillThere(a, b);
  }

  lemma TriedOne(a: Store, b: Store, after: Store, c: Store, done: seq<TaskId>, reported: seq<TaskId>, taken: set<Status>,
                 refused: set<Status>, t: TaskId, ok: bool)
    requires Tried(a, b, done, reported, taken, refused) && Reaches(b, after) && Reaches(after, c)
    requires if ok then StatusIn(after, t, taken) else StatusIn(b, t, refused)
    ensures Tried(a, c, done + [t], if ok then reported + [t] else reported, taken, refused)
  {
    hide Reaches;
    ReachesThrough(b, after, c);
    TriedStays(a, b, c, done, reported, taken, refused);
    if ok {
      ReachesThrough(a, b, after);
      assert IsBetween(a, after, c);
    } else {
      assert IsBetween(a, b, c);
    }
  }

  /** Once cancelled, still cancelled. */
  lemma CancelledSince(a: Store, b: Store, t: TaskId)
    requires PassedThrough(a, b, t, {Cancelled})
    ensures HasStatus(b, t, Cancelled)
  {
    var mid :| IsBetween(a, mid, b) && StatusIn(mid, t, {Cancelled});
    var ops :| Run(mid, ops) == b;
    OverSticks(mid, ops, t);
  }

  /** A stop sticks: whatever this process and all the others do afterwards, the row is what the cancel
      left. */
  lemma StopsStick(a: Store, b: Store, t: TaskId)
    requires Reaches(a, b) && HasStatus(a, t, Cancelled)
    ensures t < |b.rows| && b.rows[t] == a.rows[t]
  {
    var ops :| Run(a, ops) == b;
    OverSticks(a, ops, t);
  }

  lemma StillThere(a: Store, b: Store)
    requires Reaches(a, b)
    ensures |b.rows| >= |a.rows| && |b.leases| >= |a.leases| && b.now >= a.now
    ensures forall t :: 0 <= t < |a.rows| ==> b.rows[t].kind == a.rows[t].kind
  {
    var ops :| Run(a, ops) == b;
    TablesGrow(a, ops);
  }

  /** No longer standing in anybody's way, or about to be swept. */
  predicate IsSettled(s: Store, l: LeaseId) {
    l < |s.leases| && (!IsActive(s, l) || IsLapsed(s, l))
  }

  lemma SettledSince(a: Store, b: Store, l: LeaseId)
    requires Reaches(a, b) && l < |a.leases|
    ensures l < |b.leases| && b.leases[l].task == a.leases[l].task
    ensures IsSettled(a, l) ==> IsSettled(b, l)
    ensures !IsActive(a, l) ==> b.leases[l] == a.leases[l]
  {
    var ops :| Run(a, ops) == b;
    LeaseSticks(a, ops, l);
  }

  lemma FinishSettles(s: Store, l: LeaseId, how: Ending)
    requires l < |s.leases| && !how.Expired?
    ensures IsSettled(FinishLease(s, l, how).1, l)
  {
  }

  /** The active leases of one worker, oldest first. */
  function LeasesOf(leases: seq<WorkLease>, worker: string): (r: seq<LeaseId>)
    ensures forall l :: l in r <==> 0 <= l < |leases| && leases[l].status.Active? && leases[l].worker == worker
  {
    if leases == [] then []
    else
      var last: LeaseId := |leases| - 1;
      LeasesOf(leases[..last], worker)
      + if leases[last].status.Active? && leases[last].worker == worker then [last] else []
  }

  /** The tasks nothing was leased on. */
  function Unleased(tasks: seq<TaskId>, s: Store): (r: seq<TaskId>)
    ensures forall t :: t in r <==> t in tasks && !IsLeased(s, t)
  {
    if tasks == [] then []
    else
      var last := tasks[|tasks| - 1];
      Unleased(tasks[..|tasks| - 1], s) + if IsLeased(s, last) then [] else [last]
  }

  lemma UnleasedOne(tasks: seq<TaskId>, t: TaskId, s: Store)
    ensures Unleased(tasks + [t], s) == if IsLeased(s, t) then Unleased(tasks, s) else Unleased(tasks, s) + [t]
  {
    assert (tasks + [t])[..|tasks|] == tasks;
  }

  datatype Ended = Requeue | Stopped | Landed | Fell

  /** How a run ended one of its tasks. */
  datatype Entry = Entry(task: TaskId, ended: Ended, conversational: bool)

  /** Where settling the entry leaves its row, unless somebody stopped the task first: a requeued task is
      queued, or had moved on from its run. */
  function SettledAs(e: Entry): set<Status> {
    match e.ended
    case Landed => {if e.conversational then Open else Integrated}
    case Fell => {Failed}
    case Requeue => NOT_CLAIMED
    case Stopped => {}
  }

  predicate Records(e: Entry) {
    e.ended.Landed? || e.ended.Fell?
  }

  /** How the run's lease on the task is ended. */
  function EndingOf(e: Entry): Ending
    requires !e.ended.Stopped?
  {
    match e.ended
    case Requeue => Released
    case Landed => Completed
    case Fell => Failing
  }

  /** The lease tracked for a task is one on that task. */
  predicate IsItsOwn(s: Store, leases: map<TaskId, LeaseId>, t: TaskId) {
    t < |s.rows| && (t in leases ==> leases[t] < |s.leases| && s.leases[leases[t]].task == t)
  }

  /** The store can record the entry, or put its task back, as it is. */
  predicate CanSettle(s: Store, e: Entry, leases: map<TaskId, LeaseId>) {
    match e.ended
    case Requeue =>
      if e.task in leases then IsActive(s, leases[e.task]) && !IsLapsed(s, leases[e.task])
      else HasStatus(s, e.task, Claimed) || HasStatus(s, e.task, Failed)
    case Stopped => true
    case _ => HasStatus(s, e.task, Claimed)
  }

  /** Undisturbed: a lease that was still the run's to end has ended as its entry says, and a claimed task
      that goes back in the queue is there. */
  ghost predicate EndedQuietly(s: Store, s': Store, e: Entry, leases: map<TaskId, LeaseId>) {
    && (!e.ended.Stopped? && e.task in leases && IsActive(s, leases[e.task]) && !IsLapsed(s, leases[e.task]) ==>
          leases[e.task] < |s'.leases| && s'.leases[leases[e.task]].status == TaskStore.Ended(EndingOf(e)))
    && (e.ended.Requeue? && CanSettle(s, e, leases) && IsItsOwn(s, leases, e.task) && HasStatus(s, e.task, Claimed) ==>
          HasStatus(s', e.task, Submitted))
  }

  function Recording(e: Entry): Op {
    if e.ended.Landed? && e.conversational then OpOpen(e.task) else OpComplete(e.task, e.ended.Landed?)
  }

  /** What is asked of the store for one entry, in order. */
  function Settlement(e: Entry, leases: map<TaskId, LeaseId>, thrown: bool): seq<Op> {
    match e.ended
    case Stopped => []
    case Requeue => [if e.task in leases then OpFinish(leases[e.task], EndingOf(e)) else OpRetry(e.task)]
    case _ =>
      [Recording(e)] + if thrown || e.task !in leases then [] else [OpFinish(leases[e.task], EndingOf(e))]
  }

  /** What a run may ask of the store, and why: each outcome on its own row; each lease ended as an entry of
      its task says, requeued ones released, landed ones completed and the others failed; and what is left
      over, failed. */
  ghost predicate IsCalledFor(op: Op, entries: seq<Entry>, leases: map<TaskId, LeaseId>, claimed: seq<TaskId>, thrown: bool) {
    match op
    case OpFinish(l, how) =>
      exists t :: t in leases && leases[t] == l
                  && ((exists k :: 0 <= k < |entries| && entries[k].task == t && EndsLease(entries[k], how))
                      || (how.Failing? && (thrown || forall k :: 0 <= k < |entries| ==> entries[k].task != t)))
    case OpComplete(t, integrated) =>
      || (exists k :: 0 <= k < |entries| && entries[k].task == t
                      && if integrated then entries[k].ended.Landed? && !entries[k].conversational else entries[k].ended.Fell?)
      || (thrown && !integrated && t in claimed)
    case OpOpen(t) =>
      exists k :: 0 <= k < |entries| && entries[k].task == t && entries[k].ended.Landed? && entries[k].conversational
    case OpRetry(t) => exists k :: 0 <= k < |entries| && entries[k].task == t && entries[k].ended.Requeue?
    case _ => false
  }

  predicate EndsLease(e: Entry, how: Ending) {
    (how.Released? && e.ended.Requeue?) || (how.Completed? && e.ended.Landed?) || (how.Failing? && e.ended.Fell?)
  }

  ghost predicate AreCalledFor(calls: seq<Op>, before: seq<Op>, entries: seq<Entry>, leases: map<TaskId, LeaseId>,
                               claimed: seq<TaskId>, thrown: bool)
  {
    && |before| <= |calls| && calls[..|before|] == before
    && forall i :: |before| <= i < |calls| ==> IsCalledFor(calls[i], entries, leases, claimed, thrown)
  }

  /** The first entry of each task has its lease ended as it says. */
  ghost predicate HaveEnded(calls: seq<Op>, before: seq<Op>, entries: seq<Entry>, n: nat, leases: map<TaskId, LeaseId>) {
    && n <= |entries| && |before| <= |calls|
    && forall k :: 0 <= k < n && entries[k].task in leases && !entries[k].ended.Stopped? && IsFirstEntry(entries, k) ==>
         exists i :: |before| <= i < |calls| && IsEndOf(calls[i], leases[entries[k].task], entries[k])
  }

  predicate IsFirstEntry(entries: seq<Entry>, k: nat)
    requires k < |entries|
  {
    forall j :: 0 <= j < k ==> entries[j].task != entries[k].task
  }

  predicate IsEndOf(op: Op, l: LeaseId, e: Entry) {
    op.OpFinish? && op.lease == l && EndsLease(e, op.how)
  }

  /** What is still tracked: the leases of tasks that have had no entry. */
  ghost predicate IsLeft(leases: map<TaskId, LeaseId>, left: map<TaskId, LeaseId>, entries: seq<Entry>, n: nat)
    requires n <= |entries|
  {
    forall t :: t in left <==> t in leases && forall j :: 0 <= j < n ==> entries[j].task != t
  }

  lemma NothingCalled(calls: seq<Op>, entries: seq<Entry>, leases: map<TaskId, LeaseId>, claimed: seq<TaskId>, thrown: bool)
    ensures AreCalledFor(calls, calls, entries, leases, claimed, thrown) && HaveEnded(calls, calls, entries, 0, leases)
    ensures IsLeft(leases, leases, entries, 0)
  {
  }

  /** One entry more. */
  lemma EntryIsCalledFor(calls: seq<Op>, before: seq<Op>, entries: seq<Entry>, k: nat, leases: map<TaskId, LeaseId>,
                         left: map<TaskId, LeaseId>, claimed: seq<TaskId>, thrown: bool)
    requires k < |entries| && AreCalledFor(calls, before, entries, leases, claimed, false)
    requires forall t :: t in left ==> t in leases && left[t] == leases[t]
    ensures AreCalledFor(calls + Settlement(entries[k], left, thrown), before, entries, leases, claimed, thrown)
  {
    var e, more := entries[k], Settlement(entries[k], left, thrown);
    assert (calls + more)[..|before|] == before;
    forall op | op in more ensures IsCalledFor(op, entries, leases, claimed, thrown) {
      if op.OpFinish? {
        assert EndsLease(e, op.how);
      }
    }
    forall i | |before| <= i < |calls + more| ensures IsCalledFor((calls + more)[i], entries, leases, claimed, thrown) {
      if i < |calls| {
        assert IsCalledFor(calls[i], entries, leases, claimed, false);
      } else {
        assert (calls + more)[i] in more;
      }
    }
  }

  lemma EntryHasEnded(calls: seq<Op>, before: seq<Op>, entries: seq<Entry>, k: nat, leases: map<TaskId, LeaseId>,
                      left: map<TaskId, LeaseId>)
    requires k < |entries| && HaveEnded(calls, before, entries, k, leases) && IsLeft(leases, left, entries, k)
    requires forall t :: t in left ==> t in leases && left[t] == leases[t]
    ensures HaveEnded(calls + Settlement(entries[k], left, false), before, entries, k + 1, leases)
    ensures IsLeft(leases, left - {entries[k].task}, entries, k + 1)
  {
    var e, more := entries[k], Settlement(entries[k], left, false);
    var now := calls + more;
    forall j | 0 <= j < k + 1 && entries[j].task in leases && !entries[j].ended.Stopped? && IsFirstEntry(entries, j)
      ensures exists i :: |before| <= i < |now| && IsEndOf(now[i], leases[entries[j].task], entries[j])
    {
      if j < k {
        var i :| |before| <= i < |calls| && IsEndOf(calls[i], leases[entries[j].task], entries[j]);
        assert now[i] == calls[i];
      } else {
        assert e.task in left;
        assert IsEndOf(now[|now| - 1], leases[e.task], e);
      }
    }
  }

  /** What the clean-up asks. */
  lemma CleanUpIsCalledFor(calls: seq<Op>, before: seq<Op>, op: Op, entries: seq<Entry>, leases: map<TaskId, LeaseId>,
                           claimed: seq<TaskId>, thrown: bool)
    requires AreCalledFor(calls, before, entries, leases, claimed, thrown) && IsCalledFor(op, entries, leases, claimed, thrown)
    ensures AreCalledFor(calls + [op], before, entries, leases, claimed, thrown)
  {
    assert (calls + [op])[..|before|] == before;
  }

  lemma EndedStays(calls: seq<Op>, more: seq<Op>, before: seq<Op>, entries: seq<Entry>, n: nat, leases: map<TaskId, LeaseId>)
    requires HaveEnded(calls, before, entries, n, leases) && |calls| <= |more| && more[..|calls|] == calls
    ensures HaveEnded(more, before, entries, n, leases)
  {
    forall k | 0 <= k < n && entries[k].task in leases && !entries[k].ended.Stopped? && IsFirstEntry(entries, k)
      ensures exists i :: |before| <= i < |more| && IsEndOf(more[i], leases[entries[k].task], entries[k])
    {
      var i :| |before| <= i < |calls| && IsEndOf(calls[i], leases[entries[k].task], entries[k]);
      assert more[i] == calls[i];
    }
  }

  predicate IsStopped(entries: seq<Entry>, t: TaskId) {
    exists k :: 0 <= k < |entries| && entries[k].task == t && entries[k].ended.Stopped?
  }

  /** Every outcome among the first entries is on its row, or somebody stopped the task. */
  ghost predicate Recorded(a: Store, b: Store, entries: seq<Entry>, leases: map<TaskId, LeaseId>, stopped: set<TaskId>) {
    && Reaches(a, b)
    && forall k :: 0 <= k < |entries| && IsOnRow(a, entries[k], leases, stopped) ==>
         PassedThrough(a, b, entries[k].task, SettledAs(entries[k]))
  }

  /** The entry shows on its row: an outcome, unless somebody stopped the task, and a task put back. */
  predicate IsOnRow(s: Store, e: Entry, leases: map<TaskId, LeaseId>, stopped: set<TaskId>) {
    if e.ended.Requeue? then IsItsOwn(s, leases, e.task) else Records(e) && e.task !in stopped
  }

  lemma RecordedStays(a: Store, b: Store, c: Store, entries: seq<Entry>, leases: map<TaskId, LeaseId>, stopped: set<TaskId>)
    requires Recorded(a, b, entries, leases, stopped) && Reaches(b, c)
    ensures Recorded(a, c, entries, leases, stopped)
  {
    hide Reaches, PassedThrough;
    ReachesThrough(a, b, c);
    forall k | 0 <= k < |entries| && IsOnRow(a, entries[k], leases, stopped)
      ensures PassedThrough(a, c, entries[k].task, SettledAs(entries[k]))
    {
      PassedStays(a, b, c, entries[k].task, SettledAs(entries[k]));
    }
  }

  /** Of the leases a run started with, each is still tracked, settled, or of a task that was stopped. */
  ghost predicate Tracked(s: Store, leases: map<TaskId, LeaseId>, left: map<TaskId, LeaseId>, entries: seq<Entry>) {
    && (forall t :: t in leases ==> leases[t] < |s.leases|)
    && (forall t :: t in left ==> t in leases && left[t] == leases[t])
    && (forall t :: t in leases && t !in left ==> IsStopped(entries, t) || IsSettled(s, leases[t]))
  }

  lemma TrackedStays(s: Store, s': Store, leases: map<TaskId, LeaseId>, left: map<TaskId, LeaseId>, entries: seq<Entry>)
    requires Tracked(s, leases, left, entries) && Reaches(s, s')
    ensures Tracked(s', leases, left, entries)
  {
    hide Reaches, IsStopped;
    forall t | t in leases ensures leases[t] < |s'.leases| && (IsSettled(s, leases[t]) ==> IsSettled(s', leases[t])) {
      SettledSince(s, s', leases[t]);
    }
  }

  function Ids(reports: seq<Report>): (r: seq<TaskId>)
    ensures |r| == |reports|
  {
    seq(|reports|, i requires 0 <= i < |reports| => reports[i].id)
  }

  ghost predicate HonestReports(s: Store, reports: seq<Report>) {
    forall k :: 0 <= k < |reports| ==>
      && reports[k].id < |s.rows|
      && var status := s.rows[reports[k].id].status;
         && (reports[k].was.WasRunning? <==> status == Claimed)
         && (reports[k].was.WasHeld? <==> status in {Planned, Paused})
         && (reports[k].was.WasWaiting? <==> status == Open)
  }

  datatype Verb = Cancelling | Pausing | Resuming | Retrying

  function Stop(verb: Verb, t: TaskId): Op {
    if verb.Cancelling? then OpCancel(t) else OpPause(t)
  }

  function TakenBy(verb: Verb): set<Status> {
    if verb.Cancelling? then {Cancelled} else {Paused}
  }

  function RefusedBy(verb: Verb): set<Status> {
    if verb.Cancelling? then OVER else NOT_PAUSABLE
  }

  /** The one thing a sweep does to a task, or the release of a lease that was on one of its tasks. */
  predicate IsFor(verb: Verb, op: Op, tasks: seq<TaskId>, s: Store) {
    match op
    case OpCancel(t) => verb.Cancelling? && t in tasks
    case OpPause(t) => verb.Pausing? && t in tasks
    case OpResume(t) => verb.Resuming? && t in tasks
    case OpRetry(t) => verb.Retrying? && t in tasks
    case OpFinish(l, how) => (verb.Cancelling? || verb.Pausing?) && how.Released? && l < |s.leases| && s.leases[l].task in tasks
    case _ => false
  }

  /** The calls made since: nothing but the sweep's own work on its own tasks. */
  ghost predicate Wrote(verb: Verb, before: seq<Op>, after: seq<Op>, tasks: seq<TaskId>, s: Store) {
    && |before| <= |after| && after[..|before|] == before
    && forall i :: |before| <= i < |after| ==> IsFor(verb, after[i], tasks, s)
  }

  lemma WroteOne(verb: Verb, before: seq<Op>, after: seq<Op>, tasks: seq<TaskId>, s: Store, s': Store, op: Op)
    requires Wrote(verb, before, after, tasks, s) && Reaches(s, s') && IsFor(verb, op, tasks, s)
    ensures Wrote(verb, before, after + [op], tasks, s')
  {
    hide Reaches;
    WroteStays(verb, before, after, tasks, s, s');
    if op.OpFinish? {
      SettledSince(s, s', op.lease);
    }
  }

  lemma WroteStays(verb: Verb, before: seq<Op>, after: seq<Op>, tasks: seq<TaskId>, s: Store, s': Store)
    requires Wrote(verb, before, after, tasks, s) && Reaches(s, s')
    ensures Wrote(verb, before, after, tasks, s')
  {
    hide Reaches;
    forall i | |before| <= i < |after| ensures IsFor(verb, after[i], tasks, s') {
      if after[i].OpFinish? {
        SettledSince(s, s', after[i].lease);
      }
    }
  }

  /** What a sweep that stops tasks has done after some of them: the newest lease it saw on each task it
      stopped is out of the way. */
  ghost predicate Freed(seen: Store, s: Store, active: seq<WorkLease>, repository: string, reported: seq<TaskId>) {
    && Reaches(seen, s) && (active == seen.leases || active == [])
    && forall t :: t in reported && NewestActive(active, repository, t).Some?
         ==> IsSettled(s, NewestActive(active, repository, t).value)
  }

  /** The leases a sweep ends when nobody else uses the store. */
  predicate IsFreed(s: Store, active: seq<WorkLease>, repository: string, reported: seq<TaskId>, l: LeaseId)
    requires l < |s.leases|
  {
    var t := s.leases[l].task;
    s.leases[l].status.Active? && !IsLapsed(s, l) && t in reported && NewestActive(active, repository, t) == Some(l)
  }

  /** And that it touches no others. */
  ghost predicate LeasesLeft(s: Store, s': Store, active: seq<WorkLease>, repository: string, reported: seq<TaskId>) {
    && s'.now == s.now && |s'.leases| == |s.leases| && (active == s.leases || active == [])
    && forall l: LeaseId :: l < |s.leases| ==>
         s'.leases[l] == if IsFreed(s, active, repository, reported, l)
                         then s.leases[l].(status := TaskStore.Ended(Released)) else s.leases[l]
  }

  lemma LeasesLeftAside(s: Store, mid: Store, s': Store, active: seq<WorkLease>, repository: string, reported: seq<TaskId>)
    requires LeasesLeft(s, mid, active, repository, reported) && s'.leases == mid.leases && s'.now == mid.now
    ensures LeasesLeft(s, s', active, repository, reported)
  {
  }

  lemma LeasesLeftOne(s: Store, mid: Store, active: seq<WorkLease>, repository: string, reported: seq<TaskId>, t: TaskId)
    requires LeasesLeft(s, mid, active, repository, reported)
    ensures var lease := NewestActive(active, repository, t);
            LeasesLeft(s, if lease.Some? then FinishLease(mid, lease.value, Released).1 else mid, active, repository,
                       reported + [t])
  {
    hide NewestActive;
    var lease := NewestActive(active, repository, t);
    forall l: LeaseId | l < |s.leases|
      ensures IsFreed(s, active, repository, reported + [t], l)
              <==> IsFreed(s, active, repository, reported, l)
                   || (lease == Some(l) && s.leases[l].status.Active? && !IsLapsed(s, l))
    {
    }
  }

  /** What a stop leaves behind. Of the active leases on a task it stopped, one is left exactly when a
      newer one was listed with it, or nothing the stop listed was running, so that it looked at none. */
  lemma ActiveLeaseIsLeftIff(s: Store, s': Store, active: seq<WorkLease>, repository: string, reported: seq<TaskId>,
                             l: LeaseId)
    requires LeasesLeft(s, s', active, repository, reported)
    requires IsActive(s, l) && !IsLapsed(s, l) && s.leases[l].repository == repository && s.leases[l].task in reported
    ensures IsActive(s', l)
            <==> active == [] || exists m :: l < m < |s.leases| && Holds(s.leases[m], s.leases[l].task)
                                             && s.leases[m].repository == repository
  {
    var t := s.leases[l].task;
    assert Holds(s.leases[l], t);
  }

  lemma FreedStays(seen: Store, s: Store, s': Store, active: seq<WorkLease>, repository: string, reported: seq<TaskId>)
    requires Freed(seen, s, active, repository, reported) && Reaches(s, s')
    ensures Freed(seen, s', active, repository, reported)
  {
    hide Reaches, NewestActive;
    ReachesThrough(seen, s, s');
    forall t | t in reported && NewestActive(active, repository, t).Some?
      ensures IsSettled(s', NewestActive(active, repository, t).value)
    {
      SettledSince(s, s', NewestActive(active, repository, t).value);
    }
  }

  class ControlPlane {
    var store: Store
    /** What this process has asked of the store. */
    ghost var calls: seq<Op>
    /** Nobody else is using the store, as at startup. */
    ghost const quiet: bool

    constructor (store: Store, ghost quiet: bool)
      ensures this.store == store && calls == [] && this.quiet == quiet
    {
      this.store, calls, this.quiet := store, [], quiet;
    }

    /** What everybody else does meanwhile. */
    method Others()
      modifies this`store
      ensures Reaches(old(store), store) && (quiet ==> store == old(store))
    {
      ReachesSelf(store);
    }

    method Ask(op: Op) returns (taken: bool)
      modifies this
      ensures calls == old(calls) + [op]
      ensures taken == Call(old(store), op).0
      ensures Reaches(old(store), Call(old(store), op).1) && Reaches(Call(old(store), op).1, store)
      ensures Reaches(old(store), store)
      ensures quiet ==> store == Call(old(store), op).1
    {
      hide Call;
      ReachesSelf(store);
      ReachesStep(store, store, op);
      var (ok, next) := Call(store, op);
      taken, store, calls := ok, next, calls + [op];
      label called:
      Others();
      ReachesThrough(old(store), old@called(store), store);
    }

    /** Asks the store for work; what it hands out is a task and the lease minted on it. */
    method AskLease(named: Option<TaskId>, r: LeaseRequest) returns (got: Option<(TaskId, LeaseId)>)
      modifies this
      ensures calls == old(calls) + [OpLease(named, r)]
      ensures var (ok, next) := LeaseNext(old(store), named, r);
              && (got.Some? <==> ok)
              && (ok ==> |next.leases| == |old(store).leases| + 1
                         && got.value == (next.leases[|old(store).leases|].task, |old(store).leases|))
              && Reaches(old(store), next) && Reaches(next, store) && Reaches(old(store), store)
              && (quiet ==> store == next)
    {
      hide Call, ExpireFirst, IsEligible;
      ReachesSelf(store);
      LeaseIsAnOp(store, named, r);
      ReachesStep(store, store, OpLease(named, r));
      var (ok, next) := LeaseNext(store, named, r);
      got := if ok then Some((next.leases[|store.leases|].task, |store.leases|)) else None;
      store, calls := next, calls + [OpLease(named, r)];
      label called:
      Others();
      ReachesThrough(old(store), old@called(store), store);
    }

    /** Releases the lease seen on a task just stopped, if one was. */
    method ReleaseSeen(t: TaskId, repository: string, active: seq<WorkLease>, verb: Verb, ghost start: Store,
                       ghost seen: Store, ghost asked: seq<Op>, ghost tasks: seq<TaskId>, ghost done: seq<TaskId>,
                       ghost reported: seq<TaskId>, ghost taken: set<Status>, ghost refused: set<Status>)
      requires (verb.Cancelling? || verb.Pausing?) && t in tasks
      requires Freed(seen, store, active, repository, reported)
      requires quiet ==> LeasesLeft(start, store, active, repository, reported)
      requires Tried(start, store, done, reported + [t], taken, refused) && Wrote(verb, asked, calls, tasks, store)
      modifies this
      ensures Freed(seen, store, active, repository, reported + [t])
      ensures quiet ==> LeasesLeft(start, store, active, repository, reported + [t])
      ensures quiet && !HasStatus(old(store), t, Claimed) ==> store.rows == old(store).rows
      ensures Tried(start, store, done, reported + [t], taken, refused) && Wrote(verb, asked, calls, tasks, store)
    {
      hide Reaches, Tried, Wrote, NewestActive, LeasesLeft;
      var lease := NewestActive(active, repository, t);
      if quiet {
        LeasesLeftOne(start, store, active, repository, reported, t);
      }
      if lease.Some? {
        ghost var mid := store;
        SettledSince(seen, mid, lease.value);
        assert mid.leases[lease.value].task == t;
        var _ := Ask(OpFinish(lease.value, Released));
        FinishSettles(mid, lease.value, Released);
        SettledSince(FinishLease(mid, lease.value, Released).1, store, lease.value);
        FreedStays(seen, mid, store, active, repository, reported);
        TriedStays(start, mid, store, done, reported + [t], taken, refused);
        SettledSince(mid, store, lease.value);
        WroteOne(verb, asked, old(calls), tasks, mid, store, OpFinish(lease.value, Released));
      }
    }

    /** One task of a stop: its row first, and where that was taken, the lease seen on it. */
    method StopOne(t: TaskId, repository: string, active: seq<WorkLease>, verb: Verb, ghost start: Store,
                   ghost seen: Store, ghost asked: seq<Op>, ghost tasks: seq<TaskId>, ghost done: seq<TaskId>,
                   ghost so: seq<TaskId>)
      returns (stopped: bool)
      requires (verb.Cancelling? || verb.Pausing?) && t in tasks && t < |start.rows|
      requires Freed(seen, store, active, repository, so)
      requires quiet ==> LeasesLeft(start, store, active, repository, so)
      requires Tried(start, store, done, so, TakenBy(verb), RefusedBy(verb)) && Wrote(verb, asked, calls, tasks, store)
      modifies this
      ensures Tried(start, store, done + [t], if stopped then so + [t] else so, TakenBy(verb), RefusedBy(verb))
      ensures Freed(seen, store, active, repository, if stopped then so + [t] else so)
      ensures quiet ==> LeasesLeft(start, store, active, repository, if stopped then so + [t] else so)
      ensures Wrote(verb, asked, calls, tasks, store)
      ensures quiet ==> stopped == Call(old(store), Stop(verb, t)).0 && store.rows == Call(old(store), Stop(verb, t)).1.rows
    {
      hide Reaches, PassedThrough, NewestActive, Wrote, Freed, LeasesLeft, Tried;
      ghost var before, called := store, calls;
      TriedRows(start, before, done, so, TakenBy(verb), RefusedBy(verb));
      stopped := Ask(Stop(verb, t));
      WroteOne(verb, asked, called, tasks, before, store, Stop(verb, t));
      TriedOne(start, before, Call(before, Stop(verb, t)).1, store, done, so, TakenBy(verb), RefusedBy(verb), t, stopped);
      FreedStays(seen, before, store, active, repository, so);
      if quiet {
        LeasesLeftAside(start, before, store, active, repository, so);
      }
      if stopped {
        ReleaseSeen(t, repository, active, verb, start, seen, asked, tasks, done + [t], so, TakenBy(verb), RefusedBy(verb));
      }
    }

    /** Every task reported is cancelled, and stays so; every task that was not had ended already. */
    method CancelTasks(sweep: Sweep) returns (reports: seq<Report>, ghost seen: Store)
      modifies this
      ensures var tasks := Listing(old(store).rows, ToCancel(sweep));
              && Tried(old(store), store, tasks, Ids(reports), {Cancelled}, OVER)
              && (forall t :: t in Ids(reports) ==> HasStatus(store, t, Cancelled))
              && Wrote(Cancelling, old(calls), calls, tasks, store)
              && (forall t :: t in tasks ==> t < |old(store).rows|)
              && Freed(seen, store, LeasesToRelease(old(store).rows, tasks, seen.leases), sweep.repository, Ids(reports))
              && (quiet ==> LeasesLeft(old(store), store, LeasesToRelease(old(store).rows, tasks, old(store).leases),
                                       sweep.repository, Ids(reports)))
      ensures forall t: TaskId :: t in Listing(old(store).rows, ToCancel(sweep))
                <==> t < |old(store).rows| && MayStop(sweep, t, old(store).rows[t])
      ensures quiet ==> Ids(reports) == Listing(old(store).rows, ToCancel(sweep))
                        && store.rows == Flipped(old(store).rows, Ids(reports), Cancelled)
      ensures HonestReports(old(store), reports)
    {
      hide Reaches, Listing, Keeps, PassedThrough, NewestActive, Wrote, Freed, LeasesToRelease, LeasesLeft, MayStop,
           HasFlipped, Flipped, Tried, HonestReports, Call, Stop;
      ghost var start, asked := store, calls;
      var listed := store.rows;
      var candidates := Listing(listed, ToCancel(sweep));
      ListingIsExact(listed, ToCancel(sweep));
      reports := [];
      Others();
      seen := store;
      var active := LeasesToRelease(listed, candidates, store.leases);
      if quiet {
        NothingFlipped(start, candidates, Cancelled);
      }
      NothingReported(start);
      Begun(Cancelling, start, store, calls, candidates, active, sweep.repository, {Cancelled}, OVER);
      for k := 0 to |candidates|
        invariant Tried(start, store, candidates[..k], Ids(reports), {Cancelled}, OVER)
        invariant HonestReports(start, reports)
        invariant Freed(seen, store, active, sweep.repository, Ids(reports))
        invariant quiet ==> LeasesLeft(start, store, active, sweep.repository, Ids(reports))
        invariant Wrote(Cancelling, asked, calls, candidates, store)
        invariant quiet ==> HasFlipped(start, store, candidates, k, Ids(reports), Cancelled)
      {
        var t := candidates[k];
        assert t in candidates && candidates[..k + 1] == candidates[..k] + [t];
        if quiet {
          CancelsOne(start, store, sweep, k, Ids(reports));
        }
        ghost var before, so := store, Ids(reports);
        var stopped := StopOne(t, sweep.repository, active, Cancelling, start, seen, asked, candidates, candidates[..k], so);
        if stopped {
          HonestOne(start, reports, t);
          reports := reports + [Report(t, WasOf(listed[t].status))];
          assert Ids(reports) == so + [t];
        }
        if quiet {
          StopsAs(before, t);
          FlippedAside(start, Cancel(before, t).1, store, candidates, k + 1, so + [t], Cancelled);
        }
      }
      assert candidates[..|candidates|] == candidates;
      ReportedAreCancelled(start, store, candidates, Ids(reports));
      StoppableAreListed(listed, sweep);
      if quiet {
        AllFlipped(start, store, candidates, Ids(reports), Cancelled);
      }
    }

    /** Every task reported was paused by this call; every other one asked for was not there to pause. */
    method PauseTasks(repository: string, project: Option<string>, wanted: set<TaskId>)
      returns (reports: seq<Report>, ghost seen: Store)
      modifies this
      ensures var tasks := Listing(old(store).rows, ToPause(repository, project, wanted));
              && Tried(old(store), store, tasks, Ids(reports), {Paused}, NOT_PAUSABLE)
              && Wrote(Pausing, old(calls), calls, tasks, store)
              && (forall t :: t in tasks ==> t < |old(store).rows|)
              && Freed(seen, store, LeasesToRelease(old(store).rows, tasks, seen.leases), repository, Ids(reports))
              && (quiet ==> LeasesLeft(old(store), store, LeasesToRelease(old(store).rows, tasks, old(store).leases), repository,
                                       Ids(reports)))
      ensures forall t: TaskId :: t in Listing(old(store).rows, ToPause(repository, project, wanted))
                <==> t < |old(store).rows| && MayPark(repository, project, wanted, t, old(store).rows[t])
      ensures quiet ==> Ids(reports) == Listing(old(store).rows, ToPause(repository, project, wanted))
                        && store.rows == Flipped(old(store).rows, Ids(reports), Paused)
      ensures HonestReports(old(store), reports)
    {
      hide Reaches, Listing, Keeps, PassedThrough, NewestActive, Wrote, Freed, LeasesToRelease, LeasesLeft, MayPark,
           HasFlipped, Flipped, Tried, HonestReports, Call, Stop;
      ghost var start, asked := store, calls;
      var listed := store.rows;
      var candidates := Listing(listed, ToPause(repository, project, wanted));
      ListingIsExact(listed, ToPause(repository, project, wanted));
      reports := [];
      Others();
      seen := store;
      var active := LeasesToRelease(listed, candidates, store.leases);
      if quiet {
        NothingFlipped(start, candidates, Paused);
      }
      NothingReported(start);
      Begun(Pausing, start, store, calls, candidates, active, repository, {Paused}, NOT_PAUSABLE);
      for k := 0 to |candidates|
        invariant Tried(start, store, candidates[..k], Ids(reports), {Paused}, NOT_PAUSABLE)
        invariant HonestReports(start, reports)
        invariant Freed(seen, store, active, repository, Ids(reports))
        invariant quiet ==> LeasesLeft(start, store, active, repository, Ids(reports))
        invariant Wrote(Pausing, asked, calls, candidates, store)
        invariant quiet ==> HasFlipped(start, store, candidates, k, Ids(reports), Paused)
      {
        var t := candidates[k];
        assert t in candidates && candidates[..k + 1] == candidates[..k] + [t];
        if quiet {
          PausesOne(start, store, repository, project, wanted, k, Ids(reports));
        }
        ghost var before, so := store, Ids(reports);
        var stopped := StopOne(t, repository, active, Pausing, start, seen, asked, candidates, candidates[..k], so);
        if stopped {
          HonestOne(start, reports, t);
          reports := reports + [Report(t, WasOf(listed[t].status))];
          assert Ids(reports) == so + [t];
        }
        if quiet {
          StopsAs(before, t);
          FlippedAside(start, Pause(before, t).1, store, candidates, k + 1, so + [t], Paused);
        }
      }
      assert candidates[..|candidates|] == candidates;
      ParkableAreListed(listed, repository, project, wanted);
      if quiet {
        AllFlipped(start, store, candidates, Ids(reports), Paused);
      }
    }

    /** Only what was actually put back is reported, so a second press reports nothing. */
    method ResumeTasks(repository: string, project: Option<string>, wanted: set<TaskId>) returns (resumed: seq<TaskId>)
      modifies this
      ensures var tasks := Listing(old(store).rows, ToResume(repository, project, wanted));
              && Tried(old(store), store, tasks, resumed, {Submitted}, NOT_PAUSED)
              && Wrote(Resuming, old(calls), calls, tasks, store)
      ensures forall t: TaskId :: t in Listing(old(store).rows, ToResume(repository, project, wanted))
                <==> t < |old(store).rows| && MayReturn(repository, project, wanted, t, old(store).rows[t])
      ensures quiet ==> resumed == Listing(old(store).rows, ToResume(repository, project, wanted))
                        && store == Swept(old(store), resumed)
    {
      hide Reaches, Listing, Keeps, PassedThrough, Wrote, Freed, MayReturn, Swept;
      ghost var start, asked := store, calls;
      var candidates := Listing(store.rows, ToResume(repository, project, wanted));
      ListingIsExact(store.rows, ToResume(repository, project, wanted));
      SweptNothing(start);
      resumed := [];
      Others();
      Begun(Resuming, start, store, calls, candidates, [], repository, {Submitted}, NOT_PAUSED);
      for k := 0 to |candidates|
        invariant Tried(start, store, candidates[..k], resumed, {Submitted}, NOT_PAUSED)
        invariant Wrote(Resuming, asked, calls, candidates, store)
        invariant quiet ==> resumed == candidates[..k] && store == Swept(start, resumed)
      {
        var t := candidates[k];
        assert t in candidates;
        if quiet {
          ResumesOne(start, store, repository, project, wanted, k);
        }
        ghost var before, called := store, calls;
        StillThere(start, store);
        var ok := Ask(OpResume(t));
        WroteOne(Resuming, asked, called, candidates, before, store, OpResume(t));
        TriedOne(start, before, Resume(before, t).1, store, candidates[..k], resumed, {Submitted}, NOT_PAUSED, t, ok);
        assert candidates[..k + 1] == candidates[..k] + [t];
        if ok {
          resumed := resumed + [t];
        }
      }
      assert candidates[..|candidates|] == candidates;
      ReturnableAreListed(start.rows, repository, project, wanted);
    }

    /** Hands back every lease of the local runner, and names the tasks that are queued because of it. */
    method ReleaseLocalRunnerLeases(worker: string) returns (requeued: seq<TaskId>, ghost released: seq<LeaseId>)
      modifies this
      ensures Reaches(old(store), store)
      ensures forall l :: l in LeasesOf(old(store).leases, worker) ==> IsSettled(store, l)
      ensures forall l :: l in released ==> l in LeasesOf(old(store).leases, worker) && l < |store.leases|
                                            && store.leases[l].status == TaskStore.Ended(Released)
      ensures forall t :: t in requeued <==>
                0 <= t < |store.rows| && store.rows[t].kind.Work? && store.rows[t].status == Submitted
                && exists l :: l in released && store.leases[l].task == t
    {
      hide Reaches, Listing, AreSettled, AreHanded, FinishLease;
      ghost var start := store;
      ReachesSelf(start);
      var leases := store.leases;
      var mine := LeasesOf(leases, worker);
      requeued, released := [], [];
      Others();
      StillThere(start, store);
      NothingHanded(store, leases, mine);
      for k := 0 to |mine|
        invariant Reaches(start, store) && |leases| <= |store.leases|
        invariant AreSettled(store, mine, k) && AreHanded(store, leases, mine, released, requeued)
      {
        var l := mine[k];
        assert l in mine;
        ghost var before := store;
        var ok := Ask(OpFinish(l, Released));
        HandedOne(start, before, store, leases, mine, k, released, requeued);
        if ok {
          requeued, released := requeued + [leases[l].task], released + [l];
        }
      }
      var queued := Listing(store.rows, ToRun);
      ListingIsExact(store.rows, ToRun);
      ghost var all := requeued;
      requeued := OnlyThese(requeued, queued);
      HandedTasks(store, leases, mine, released, all);
    }

    /** A claimed task that nothing is leased on goes back to the queue; one that is leased, or has moved
        on by the time it is asked for, is left alone. */
    method ReapStrandedWork(claimedBefore: Time) returns (requeued: seq<TaskId>, ghost seen: Store)
      modifies this
      ensures var tasks := Unleased(Listing(old(store).rows, ToReap(claimedBefore)), seen);
              && Reaches(old(store), seen) && Reaches(seen, store)
              && Tried(old(store), store, tasks, requeued, {Submitted}, NOT_RETRYABLE)
              && Wrote(Retrying, old(calls), calls, tasks, store)
      ensures quiet ==> seen == old(store) && requeued == Stranded(seen, claimedBefore)
                        && store == Swept(seen, requeued)
    {
      hide Reaches, Listing, Keeps, PassedThrough, Wrote, Freed, IsLeased, Tried, Unleased;
      ghost var start, asked := store, calls;
      var candidates := Listing(store.rows, ToReap(claimedBefore));
      ListingIsExact(store.rows, ToReap(claimedBefore));
      requeued := [];
      Others();
      var listed := store;
      seen := listed;
      ghost var tasks := Unleased(candidates, seen);
      ReachesSelf(seen);
      ReapBegins(start, seen, calls, tasks);
      SweptNothing(seen);
      assert candidates[..0] == [];
      for k := 0 to |candidates|
        invariant Tried(start, store, Unleased(candidates[..k], seen), requeued, {Submitted}, NOT_RETRYABLE)
        invariant Wrote(Retrying, asked, calls, tasks, store) && Reaches(seen, store)
        invariant quiet ==> requeued == Unleased(candidates[..k], seen) && store == Swept(seen, requeued)
      {
        var t := candidates[k];
        assert t in candidates && (t in tasks <==> !IsLeased(seen, t));
        assert candidates[..k + 1] == candidates[..k] + [t];
        UnleasedOne(candidates[..k], t, seen);
        if !IsLeased(listed, t) {
          ghost var before, called := store, calls;
          ReachesThrough(start, seen, before);
          StillThere(start, before);
          var ok := Ask(OpRetry(t));
          WroteOne(Retrying, asked, called, tasks, before, store, OpRetry(t));
          TriedOne(start, before, Retry(before, t).1, store, Unleased(candidates[..k], seen), requeued, {Submitted},
                   NOT_RETRYABLE, t, ok);
          ReachesThrough(seen, before, store);
          if quiet {
            SweptOne(seen, candidates, k, claimedBefore);
          }
          requeued := if ok then requeued + [t] else requeued;
        }
      }
      assert candidates[..|candidates|] == candidates;
    }

    /** On the way out: the runner's leases first, then whatever is claimed with nothing behind it. Every
        claimed task of that second listing that nothing was leased on goes back, or had moved on. */
    method DrainInFlightWork(worker: string) returns (requeued: set<TaskId>, ghost mid: Store, ghost seen: Store)
      modifies this
      ensures Reaches(old(store), mid) && Reaches(mid, seen) && Reaches(seen, store) && Reaches(old(store), store)
      ensures forall l :: l in LeasesOf(old(store).leases, worker) ==> IsSettled(mid, l) && IsSettled(store, l)
      ensures forall t :: t in requeued ==> PassedThrough(old(store), store, t, {Submitted})
      ensures forall t :: t in Unleased(Listing(mid.rows, ToReap(mid.now)), seen)
                ==> t in requeued || PassedThrough(old(store), store, t, NOT_RETRYABLE)
      ensures quiet ==> store == Swept(mid, Stranded(mid, mid.now))
                        && forall t :: t in Stranded(mid, mid.now) ==> t in requeued
    {
      hide Reaches, PassedThrough, Wrote, Listing, Stranded, Swept;
      ghost var start := store;
      var released, gone := ReleaseLocalRunnerLeases(worker);
      mid := store;
      StillThere(start, mid);
      ReachesSelf(mid);
      var stranded;
      stranded, seen := ReapStrandedWork(store.now);
      ReachesThrough(start, mid, store);
      forall l | l in LeasesOf(start.leases, worker) ensures IsSettled(store, l) {
        SettledSince(mid, store, l);
      }
      requeued := (set t | t in released) + (set t | t in stranded);
      forall t | t in requeued ensures PassedThrough(start, store, t, {Submitted}) {
        if t in released {
          PassedHere(mid, t, {Submitted});
          PassedStays(mid, mid, store, t, {Submitted});
        }
        PassedLater(start, mid, store, t, {Submitted});
      }
      forall t | t in Unleased(Listing(mid.rows, ToReap(mid.now)), seen) && t !in requeued
        ensures PassedThrough(start, store, t, NOT_RETRYABLE)
      {
        PassedLater(start, mid, store, t, NOT_RETRYABLE);
      }
    }

    /** An entry that goes back in the queue: its lease is released, or without one, it is asked back. */
    method RequeueEntry(e: Entry, leases: map<TaskId, LeaseId>) returns (ok: bool)
      requires e.ended.Requeue? && forall t :: t in leases ==> leases[t] < |store.leases|
      modifies this
      ensures Reaches(old(store), store) && calls == old(calls) + Settlement(e, leases, !ok)
      ensures ok == CanSettle(old(store), e, leases)
      ensures e.task in leases ==> IsSettled(store, leases[e.task])
      ensures ok && IsItsOwn(old(store), leases, e.task) ==> PassedThrough(old(store), store, e.task, SettledAs(e))
      ensures quiet ==> EndedQuietly(old(store), store, e, leases)
    {
      hide Reaches, FinishLease, StatusIn;
      ghost var start := store;
      ReachesSelf(start);
      RequeueLeaves(start, e, leases);
      if e.task !in leases {
        ok := Ask(OpRetry(e.task));
        assert IsBetween(start, Retry(start, e.task).1, store);
        return;
      }
      FinishSettles(start, leases[e.task], Released);
      ok := Ask(OpFinish(leases[e.task], Released));
      assert IsBetween(start, FinishLease(start, leases[e.task], Released).1, store);
      SettledSince(FinishLease(start, leases[e.task], Released).1, store, leases[e.task]);
    }

    /** Writes an outcome on its row: a conversational turn that landed leaves its task open. */
    method RecordEntry(e: Entry) returns (recorded: bool)
      requires Records(e)
      modifies this
      ensures Reaches(old(store), store) && calls == old(calls) + [Recording(e)]
      ensures recorded <==> HasStatus(old(store), e.task, Claimed)
      ensures recorded ==> PassedThrough(old(store), store, e.task, SettledAs(e))
      ensures quiet ==> store.leases == old(store).leases && store.now == old(store).now
    {
      hide Reaches;
      ghost var start := store;
      if e.ended.Landed? && e.conversational {
        recorded := Ask(OpOpen(e.task));
        assert recorded ==> IsBetween(start, OpenTask(start, e.task).1, store);
        assert recorded ==> StatusIn(OpenTask(start, e.task).1, e.task, SettledAs(e));
      } else {
        recorded := Ask(OpComplete(e.task, e.ended.Landed?));
        assert recorded ==> IsBetween(start, Complete(start, e.task, e.ended.Landed?).1, store);
        assert recorded ==> StatusIn(Complete(start, e.task, e.ended.Landed?).1, e.task, SettledAs(e));
      }
    }

    /** Ends a lease, if it is still to be ended. */
    method FinishAs(l: LeaseId, how: Ending)
      requires l < |store.leases| && !how.Expired?
      modifies this
      ensures Reaches(old(store), store) && calls == old(calls) + [OpFinish(l, how)] && IsSettled(store, l)
      ensures quiet && IsActive(old(store), l) && !IsLapsed(old(store), l) ==>
                store.leases[l].status == TaskStore.Ended(how)
    {
      hide Reaches;
      FinishSettles(store, l, how);
      var _ := Ask(OpFinish(l, how));
      SettledSince(FinishLease(old(store), l, how).1, store, l);
    }

    /** One entry of a run's result; `thrown` where the source throws: when the store cannot record it, or
        put it back, and nobody stopped the task. */
    method SettleEntry(e: Entry, leases: map<TaskId, LeaseId>, stopped: set<TaskId>)
      returns (thrown: bool, left: map<TaskId, LeaseId>)
      requires forall t :: t in leases ==> leases[t] < |store.leases|
      modifies this
      ensures Reaches(old(store), store) && calls == old(calls) + Settlement(e, leases, thrown)
      ensures thrown <==> !CanSettle(old(store), e, leases) && (Records(e) ==> e.task !in stopped)
      ensures left == if thrown then leases else leases - {e.task}
      ensures e.task in leases && e.task !in left ==> e.ended.Stopped? || IsSettled(store, leases[e.task])
      ensures !thrown && Records(e) ==>
                e.task in stopped || PassedThrough(old(store), store, e.task, SettledAs(e))
      ensures !thrown && e.ended.Requeue? && IsItsOwn(old(store), leases, e.task) ==>
                PassedThrough(old(store), store, e.task, SettledAs(e))
      ensures quiet && !thrown ==> EndedQuietly(old(store), store, e, leases)
    {
      hide Reaches;
      ghost var start := store;
      ReachesSelf(start);
      thrown, left := false, leases;
      if e.ended.Requeue? {
        var ok := RequeueEntry(e, leases);
        return !ok, if ok then leases - {e.task} else leases;
      }
      if e.ended.Stopped? {
        return false, leases - {e.task};
      }
      var recorded := RecordEntry(e);
      if !recorded && e.task !in stopped {
        return true, leases;
      }
      if e.task in leases {
        ghost var mid := store;
        StillThere(start, mid);
        FinishAs(leases[e.task], if e.ended.Landed? then Completed else Failing);
        ReachesThrough(start, mid, store);
        if e.task !in stopped {
          PassedStays(start, mid, store, e.task, SettledAs(e));
        }
        left := leases - {e.task};
      }
    }

    /** The settlement of a run, with what its `catch` and its `finally` do; `failedBefore` where setting
        the run up or running it threw. Whichever way it ends, no lease of the run is left standing, the
        tasks somebody stopped excepted, and nothing is asked of the store but what the entries call for;
        if it ends well every outcome is on its row, every requeued task is back or had moved on, and every
        lease ended as the task's entry says, and if not no task of the wave was left claimed. */
    method SettleRun(entries: seq<Entry>, claimed: seq<TaskId>, leases: map<TaskId, LeaseId>, stopped: set<TaskId>,
                     failedBefore: bool)
      returns (thrown: bool)
      requires forall t :: t in leases ==> t in claimed && leases[t] < |store.leases|
      requires forall t :: t in claimed ==> t < |store.rows| && store.rows[t].kind.Work?
      modifies this
      ensures Reaches(old(store), store)
      ensures forall t :: t in leases ==> IsStopped(entries, t) || IsSettled(store, leases[t])
      ensures !thrown ==> Recorded(old(store), store, entries, leases, stopped)
      ensures !thrown ==> HaveEnded(calls, old(calls), entries, |entries|, leases)
      ensures AreCalledFor(calls, old(calls), entries, leases, claimed, thrown)
      ensures failedBefore ==> thrown
      ensures thrown ==> forall t :: t in claimed ==> PassedThrough(old(store), store, t, NOT_CLAIMED)
    {
      hide Reaches, PassedThrough, IsStopped, IsSettled, Recorded, Tracked, AreCalledFor, HaveEnded, IsLeft, Settlement,
           CanSettle, EndedQuietly;
      ghost var start, asked := store, calls;
      var left := leases;
      thrown := failedBefore;
      SettlementBegins(start, leases, entries, stopped);
      NothingCalled(calls, entries, leases, claimed, thrown);
      var k := 0;
      while k < |entries| && !thrown
        invariant 0 <= k <= |entries|
        invariant Reaches(start, store) && Tracked(store, leases, left, entries) && (failedBefore ==> thrown)
        invariant AreCalledFor(calls, asked, entries, leases, claimed, thrown)
        invariant !thrown ==> Recorded(start, store, entries[..k], leases, stopped)
        invariant !thrown ==> HaveEnded(calls, asked, entries, k, leases) && IsLeft(leases, left, entries, k)
      {
        ghost var before, tracked, called := store, left, calls;
        LeftIsKnown(store, leases, left, entries);
        thrown, left := SettleEntry(entries[k], left, stopped);
        ReachesThrough(start, before, store);
        TrackedOne(before, store, leases, tracked, left, entries, k);
        EntryIsCalledFor(called, asked, entries, k, leases, tracked, claimed, thrown);
        if !thrown {
          RecordedOne(start, before, store, entries, k, leases, tracked, stopped);
          EntryHasEnded(called, asked, entries, k, leases, tracked);
        }
        k := k + 1;
      }
      assert !thrown ==> entries[..k] == entries;
      ghost var settled, called := store, calls;
      StillThere(start, settled);
      LeftIsKnown(store, leases, left, entries);
      if thrown {
        FailUnresolved(claimed, asked, entries, leases);
        FreedAll(start, settled, store, claimed);
      } else {
        ReachesSelf(store);
      }
      TrackedStays(settled, store, leases, left, entries);
      ghost var failed := store;
      ReachesThrough(start, settled, store);
      FinishLeft(claimed, leases, left, entries, asked, thrown);
      ReachesThrough(start, failed, store);
      ReachesThrough(settled, failed, store);
      if thrown {
        forall t | t in claimed ensures PassedThrough(start, store, t, NOT_CLAIMED) {
          PassedStays(start, failed, store, t, NOT_CLAIMED);
        }
      } else {
        RecordedStays(start, settled, store, entries, leases, stopped);
        EndedStays(called, calls, asked, entries, |entries|, leases);
      }
    }

    /** What the `catch` does: every task of the wave that is still claimed is failed. */
    method FailUnresolved(claimed: seq<TaskId>, ghost asked: seq<Op>, ghost entries: seq<Entry>,
                          ghost leases: map<TaskId, LeaseId>)
      requires forall t :: t in claimed ==> t < |store.rows| && store.rows[t].kind.Work?
      requires AreCalledFor(calls, asked, entries, leases, claimed, true)
      modifies this
      ensures Reaches(old(store), store) && AreCalledFor(calls, asked, entries, leases, claimed, true)
      ensures forall t :: t in claimed ==> PassedThrough(old(store), store, t, NOT_CLAIMED)
    {
      hide Reaches, Listing, PassedThrough, Wrote, AreCalledFor;
      ghost var start := store;
      var unresolved := Listing(store.rows, ToFail(set t | t in claimed));
      ListingIsExact(store.rows, ToFail(set t | t in claimed));
      ReachesSelf(start);
      forall t | t in claimed && t !in unresolved ensures PassedThrough(start, store, t, NOT_CLAIMED) {
        assert IsBetween(start, start, store) && StatusIn(start, t, NOT_CLAIMED);
        PassedHere(start, t, NOT_CLAIMED);
      }
      for k := 0 to |unresolved|
        invariant Reaches(start, store) && AreCalledFor(calls, asked, entries, leases, claimed, true)
        invariant forall t :: t in claimed && t !in unresolved[k..] ==> PassedThrough(start, store, t, NOT_CLAIMED)
      {
        var t := unresolved[k];
        assert t in unresolved && unresolved[k..] == [t] + unresolved[k + 1..];
        ghost var before := store;
        StillThere(start, before);
        CleanUpIsCalledFor(calls, asked, OpComplete(t, false), entries, leases, claimed, true);
        var ok := Ask(OpComplete(t, false));
        ReachesThrough(start, before, store);
        PassedByCall(start, before, Complete(before, t, false).1, store, t, ok);
        forall u | u in claimed && u !in unresolved[k + 1..] ensures PassedThrough(start, store, u, NOT_CLAIMED) {
          if u != t {
            PassedStays(start, before, store, u, NOT_CLAIMED);
          }
        }
      }
    }

    /** What the `finally` does: whatever lease is still tracked is settled as failed. */
    method FinishLeft(claimed: seq<TaskId>, ghost leases: map<TaskId, LeaseId>, left: map<TaskId, LeaseId>,
                      ghost entries: seq<Entry>, ghost asked: seq<Op>, ghost thrown: bool)
      requires Tracked(store, leases, left, entries) && forall t :: t in left ==> t in claimed
      requires AreCalledFor(calls, asked, entries, leases, claimed, thrown)
      requires !thrown ==> IsLeft(leases, left, entries, |entries|)
      modifies this
      ensures Reaches(old(store), store) && AreCalledFor(calls, asked, entries, leases, claimed, thrown)
      ensures |calls| >= |old(calls)| && calls[..|old(calls)|] == old(calls)
      ensures forall t :: t in leases ==> IsStopped(entries, t) || IsSettled(store, leases[t])
    {
      hide Reaches, IsStopped, AreCalledFor;
      ghost var start := store;
      ReachesSelf(start);
      for k := 0 to |claimed|
        invariant Reaches(start, store) && Tracked(store, leases, left, entries)
        invariant AreCalledFor(calls, asked, entries, leases, claimed, thrown)
        invariant |calls| >= |old(calls)| && calls[..|old(calls)|] == old(calls)
        invariant forall j :: 0 <= j < k && claimed[j] in left ==> IsSettled(store, left[claimed[j]])
      {
        var t := claimed[k];
        if t in left {
          ghost var before := store;
          FinishSettles(before, left[t], Failing);
          CleanUpIsCalledFor(calls, asked, OpFinish(left[t], Failing), entries, leases, claimed, thrown);
          var _ := Ask(OpFinish(left[t], Failing));
          SettledSince(FinishLease(before, left[t], Failing).1, store, left[t]);
          ReachesThrough(start, before, store);
          TrackedStays(before, store, leases, left, entries);
          forall j | 0 <= j < k && claimed[j] in left ensures IsSettled(store, left[claimed[j]]) {
            SettledSince(before, store, left[claimed[j]]);
          }
        }
      }
    }
  }

  predicate Handed(s: Store, leases: seq<WorkLease>, mine: seq<LeaseId>, l: LeaseId, t: TaskId) {
    && l in mine && l < |leases| && l < |s.leases| && leases[l].task == t && s.leases[l].task == t
    && s.leases[l].status == TaskStore.Ended(Released)
  }

  ghost predicate AreHanded(s: Store, leases: seq<WorkLease>, mine: seq<LeaseId>, released: seq<LeaseId>, tasks: seq<TaskId>) {
    |released| == |tasks| && forall i :: 0 <= i < |released| ==> Handed(s, leases, mine, released[i], tasks[i])
  }

  ghost predicate AreSettled(s: Store, mine: seq<LeaseId>, k: nat) {
    k <= |mine| && forall j :: 0 <= j < k ==> IsSettled(s, mine[j])
  }

  lemma NothingHanded(s: Store, leases: seq<WorkLease>, mine: seq<LeaseId>)
    ensures AreSettled(s, mine, 0) && AreHanded(s, leases, mine, [], [])
  {
  }

  lemma HandedOne(start: Store, before: Store, s: Store, leases: seq<WorkLease>, mine: seq<LeaseId>, k: nat,
                  released: seq<LeaseId>, tasks: seq<TaskId>)
    requires k < |mine| && AreSettled(before, mine, k) && AreHanded(before, leases, mine, released, tasks)
    requires leases == start.leases && mine[k] < |leases| && Reaches(start, before)
    requires Reaches(before, s) && Reaches(FinishLease(before, mine[k], Released).1, s)
    ensures Reaches(start, s) && |leases| <= |s.leases| && AreSettled(s, mine, k + 1)
    ensures if FinishLease(before, mine[k], Released).0
            then AreHanded(s, leases, mine, released + [mine[k]], tasks + [leases[mine[k]].task])
            else AreHanded(s, leases, mine, released, tasks)
  {
    hide Reaches;
    var l := mine[k];
    SettledSince(start, before, l);
    FinishSettles(before, l, Released);
    SettledSince(FinishLease(before, l, Released).1, s, l);
    ReachesThrough(start, before, s);
    StillThere(start, s);
    forall j | 0 <= j < k ensures IsSettled(s, mine[j]) {
      SettledSince(before, s, mine[j]);
    }
    forall i | 0 <= i < |released| ensures Handed(s, leases, mine, released[i], tasks[i]) {
      SettledSince(before, s, released[i]);
    }
  }

  lemma HandedTasks(s: Store, leases: seq<WorkLease>, mine: seq<LeaseId>, released: seq<LeaseId>, tasks: seq<TaskId>)
    requires AreHanded(s, leases, mine, released, tasks) && AreSettled(s, mine, |mine|)
    ensures forall l :: l in mine ==> IsSettled(s, l)
    ensures forall l :: l in released ==> l in mine && l < |s.leases| && s.leases[l].status == TaskStore.Ended(Released)
    ensures forall t :: t in tasks <==> exists l :: l in released && s.leases[l].task == t
  {
    forall t ensures t in tasks <==> exists l :: l in released && s.leases[l].task == t {
      if t in tasks {
        var i :| 0 <= i < |tasks| && tasks[i] == t;
        assert Handed(s, leases, mine, released[i], tasks[i]);
      }
      if l :| l in released && s.leases[l].task == t {
        var i :| 0 <= i < |released| && released[i] == l;
        assert Handed(s, leases, mine, released[i], tasks[i]);
      }
    }
  }

  function OnlyThese(tasks: seq<TaskId>, kept: seq<TaskId>): (r: seq<TaskId>)
    ensures forall t :: t in r <==> t in tasks && t in kept
  {
    if tasks == [] then []
    else OnlyThese(tasks[..|tasks| - 1], kept)
         + if tasks[|tasks| - 1] in kept then [tasks[|tasks| - 1]] else []
  }

  /** The claimed tasks nothing is leased on. */
  function Stranded(s: Store, claimedBefore: Time): seq<TaskId> {
    Unleased(Listing(s.rows, ToReap(claimedBefore)), s)
  }

  /** The store with these tasks back in its queue. */
  function Swept(s: Store, tasks: seq<TaskId>): Store {
    s.(rows := seq(|s.rows|, t requires 0 <= t < |s.rows| =>
         if t in tasks then s.rows[t].(status := Submitted, claimedAt := None) else s.rows[t]))
  }

  lemma SweptNothing(s: Store)
    ensures Unleased([], s) == [] && Swept(s, []) == s
  {
  }

  lemma NothingFlipped(start: Store, tasks: seq<TaskId>, status: Status)
    ensures HasFlipped(start, start, tasks, 0, Ids([]), status)
  {
  }

  /** Rows are all there is to it. */
  lemma FlippedAside(start: Store, s: Store, s': Store, tasks: seq<TaskId>, k: nat, reported: seq<TaskId>, status: Status)
    requires s'.rows == s.rows
    ensures HasFlipped(start, s', tasks, k, reported, status) <==> HasFlipped(start, s, tasks, k, reported, status)
  {
  }

  lemma StopsAs(s: Store, t: TaskId)
    ensures Call(s, Stop(Cancelling, t)) == Cancel(s, t) && Call(s, Stop(Pausing, t)) == Pause(s, t)
  {
  }

  lemma NothingReported(s: Store)
    ensures HonestReports(s, [])
  {
  }

  lemma HonestOne(s: Store, reports: seq<Report>, t: TaskId)
    requires HonestReports(s, reports) && t < |s.rows|
    ensures HonestReports(s, reports + [Report(t, WasOf(s.rows[t].status))])
  {
  }

  lemma ReportedAreCancelled(a: Store, b: Store, done: seq<TaskId>, reported: seq<TaskId>)
    requires Tried(a, b, done, reported, {Cancelled}, OVER)
    ensures forall t :: t in reported ==> HasStatus(b, t, Cancelled)
  {
    hide PassedThrough, Reaches;
    forall t | t in reported ensures HasStatus(b, t, Cancelled) {
      CancelledSince(a, b, t);
    }
  }

  lemma AllFlipped(start: Store, s: Store, tasks: seq<TaskId>, reported: seq<TaskId>, status: Status)
    requires HasFlipped(start, s, tasks, |tasks|, reported, status)
    ensures reported == tasks && s.rows == Flipped(start.rows, reported, status)
  {
  }

  lemma StoppableAreListed(rows: seq<Row>, sweep: Sweep)
    ensures forall t: TaskId :: t in Listing(rows, ToCancel(sweep)) <==> t < |rows| && MayStop(sweep, t, rows[t])
    ensures forall t: TaskId :: t in Listing(rows, ToCancel(sweep)) ==> !IsOver(rows[t].status)
  {
    forall t: TaskId
      ensures t in Listing(rows, ToCancel(sweep)) <==> t < |rows| && MayStop(sweep, t, rows[t])
      ensures t in Listing(rows, ToCancel(sweep)) ==> t < |rows| && !IsOver(rows[t].status)
    {
      CandidatesAre(rows, sweep, "", None, {}, 0, t);
    }
  }

  lemma ParkableAreListed(rows: seq<Row>, repository: string, project: Option<string>, wanted: set<TaskId>)
    ensures forall t: TaskId :: t in Listing(rows, ToPause(repository, project, wanted))
              <==> t < |rows| && MayPark(repository, project, wanted, t, rows[t])
    ensures forall t: TaskId :: t in Listing(rows, ToPause(repository, project, wanted))
              ==> rows[t].status in {Submitted, Claimed}
  {
    forall t: TaskId
      ensures t in Listing(rows, ToPause(repository, project, wanted))
              <==> t < |rows| && MayPark(repository, project, wanted, t, rows[t])
    {
      CandidatesAre(rows, Sweep("", None, None, None, None), repository, project, wanted, 0, t);
    }
  }

  lemma ReturnableAreListed(rows: seq<Row>, repository: string, project: Option<string>, wanted: set<TaskId>)
    ensures forall t: TaskId :: t in Listing(rows, ToResume(repository, project, wanted))
              <==> t < |rows| && MayReturn(repository, project, wanted, t, rows[t])
    ensures forall t: TaskId :: t in Listing(rows, ToResume(repository, project, wanted)) ==> rows[t].status.Paused?
  {
    forall t: TaskId
      ensures t in Listing(rows, ToResume(repository, project, wanted))
              <==> t < |rows| && MayReturn(repository, project, wanted, t, rows[t])
    {
      CandidatesAre(rows, Sweep("", None, None, None, None), repository, project, wanted, 0, t);
    }
  }

  lemma SweptOne(s: Store, candidates: seq<TaskId>, k: nat, claimedBefore: Time)
    requires candidates == Listing(s.rows, ToReap(claimedBefore)) && k < |candidates|
    ensures var so := Unleased(candidates[..k], s);
            var t := candidates[k];
            && Retry(Swept(s, so), t) == (true, Swept(s, so + [t]))
  {
    hide Listing, IsLeased;
    ListingIsExact(s.rows, ToReap(claimedBefore));
    var so, t := Unleased(candidates[..k], s), candidates[k];
    assert t in candidates && t !in candidates[..k];
    assert Retry(Swept(s, so), t).1.rows == Swept(s, so + [t]).rows;
  }

  lemma LeaseIsAnOp(s: Store, named: Option<TaskId>, r: LeaseRequest)
    ensures Call(s, OpLease(named, r)) == LeaseNext(s, named, r)
  {
  }

  lemma ReapBegins(start: Store, seen: Store, calls: seq<Op>, tasks: seq<TaskId>)
    requires Reaches(start, seen)
    ensures Tried(start, seen, Unleased([], seen), [], {Submitted}, NOT_RETRYABLE)
    ensures Wrote(Retrying, calls, calls, tasks, seen)
  {
    hide Reaches;
  }

  lemma PassedHere(s: Store, t: TaskId, statuses: set<Status>)
    requires StatusIn(s, t, statuses)
    ensures PassedThrough(s, s, t, statuses)
  {
    ReachesSelf(s);
    assert IsBetween(s, s, s);
  }

  lemma PassedByCall(a: Store, b: Store, after: Store, c: Store, t: TaskId, ok: bool)
    requires Reaches(a, b) && Reaches(b, after) && Reaches(after, c) && t < |b.rows|
    requires (ok, after) == Complete(b, t, false)
    ensures PassedThrough(a, c, t, NOT_CLAIMED)
  {
    hide Reaches;
    ReachesThrough(a, b, after);
    ReachesThrough(b, after, c);
    if ok {
      assert IsBetween(a, after, c) && StatusIn(after, t, NOT_CLAIMED);
    } else {
      assert IsBetween(a, b, c) && StatusIn(b, t, NOT_CLAIMED);
    }
  }

  lemma SettlementBegins(s: Store, leases: map<TaskId, LeaseId>, entries: seq<Entry>, stopped: set<TaskId>)
    requires forall t :: t in leases ==> leases[t] < |s.leases|
    ensures Reaches(s, s) && Tracked(s, leases, leases, entries) && Recorded(s, s, entries[..0], leases, stopped)
  {
    hide Reaches;
    ReachesSelf(s);
  }

  lemma LeftIsKnown(s: Store, leases: map<TaskId, LeaseId>, left: map<TaskId, LeaseId>, entries: seq<Entry>)
    requires Tracked(s, leases, left, entries)
    ensures forall t :: t in left ==> t in leases && left[t] == leases[t] && left[t] < |s.leases|
  {
  }

  /** Handing a lease back, or asking a task back, finds its row moved on or leaves it queued. */
  lemma RequeueLeaves(s: Store, e: Entry, leases: map<TaskId, LeaseId>)
    requires e.ended.Requeue? && forall t :: t in leases ==> leases[t] < |s.leases|
    ensures var next := if e.task in leases then FinishLease(s, leases[e.task], Released).1 else Retry(s, e.task).1;
            && EndedQuietly(s, next, e, leases)
            && (CanSettle(s, e, leases) && IsItsOwn(s, leases, e.task) ==> StatusIn(next, e.task, NOT_CLAIMED))
    ensures e.task in leases ==> (FinishLease(s, leases[e.task], Released).0 <==> CanSettle(s, e, leases))
  {
  }

  lemma TrackedOne(s: Store, s': Store, leases: map<TaskId, LeaseId>, left: map<TaskId, LeaseId>,
                   left': map<TaskId, LeaseId>, entries: seq<Entry>, k: nat)
    requires Tracked(s, leases, left, entries) && Reaches(s, s') && k < |entries|
    requires left' == left || left' == left - {entries[k].task}
    requires entries[k].task in left && entries[k].task !in left'
             ==> entries[k].ended.Stopped? || IsSettled(s', left[entries[k].task])
    ensures Tracked(s', leases, left', entries)
  {
    hide Reaches;
    TrackedStays(s, s', leases, left, entries);
  }

  lemma RecordedOne(a: Store, b: Store, c: Store, entries: seq<Entry>, k: nat, leases: map<TaskId, LeaseId>,
                    left: map<TaskId, LeaseId>, stopped: set<TaskId>)
    requires k < |entries| && Recorded(a, b, entries[..k], leases, stopped) && Reaches(b, c)
    requires forall t :: t in left ==> t in leases && left[t] == leases[t]
    requires IsOnRow(b, entries[k], left, stopped) ==> PassedThrough(b, c, entries[k].task, SettledAs(entries[k]))
    ensures Recorded(a, c, entries[..k + 1], leases, stopped)
  {
    hide Reaches, PassedThrough;
    RecordedStays(a, b, c, entries[..k], leases, stopped);
    var e := entries[k];
    if IsOnRow(a, e, leases, stopped) {
      StillThere(a, b);
      if e.ended.Requeue? && e.task in leases {
        SettledSince(a, b, leases[e.task]);
      }
      PassedLater(a, b, c, e.task, SettledAs(e));
    }
    assert forall j :: 0 <= j < k ==> entries[..k + 1][j] == entries[..k][j];
  }

  lemma PassedLater(a: Store, b: Store, c: Store, t: TaskId, statuses: set<Status>)
    requires Reaches(a, b) && PassedThrough(b, c, t, statuses)
    ensures PassedThrough(a, c, t, statuses)
  {
    hide Reaches;
    var mid :| IsBetween(b, mid, c) && StatusIn(mid, t, statuses);
    ReachesThrough(a, b, mid);
    assert IsBetween(a, mid, c);
  }

  lemma FreedAll(a: Store, b: Store, c: Store, claimed: seq<TaskId>)
    requires Reaches(a, b) && forall t :: t in claimed ==> PassedThrough(b, c, t, NOT_CLAIMED)
    ensures forall t :: t in claimed ==> PassedThrough(a, c, t, NOT_CLAIMED)
  {
    forall t | t in claimed ensures PassedThrough(a, c, t, NOT_CLAIMED) {
      PassedLater(a, b, c, t, NOT_CLAIMED);
    }
  }

  lemma Begun(verb: Verb, start: Store, s: Store, calls: seq<Op>, tasks: seq<TaskId>, active: seq<WorkLease>,
              repository: string, taken: set<Status>, refused: set<Status>)
    requires Reaches(start, s) && (active == s.leases || active == [])
    ensures Tried(start, s, tasks[..0], Ids([]), taken, refused)
    ensures Freed(s, s, active, repository, Ids([])) && Wrote(verb, calls, calls, tasks, s)
    ensures LeasesLeft(s, s, active, repository, Ids([]))
  {
    hide Reaches, NewestActive;
    ReachesSelf(s);
    assert Ids([]) == [] && tasks[..0] == [];
  }
}
