/** Crash recovery at startup: results already on disk are promoted, stranded claims go back to the
queue, and no run is left running.

Integrating a changeset is a parameter. Recovery runs before the process serves anything, on a store
nobody else uses; its run list is taken to be complete.
*/
module Recovery {
  import opened Optional
  import opened TaskStore
  import opened ControlPlane

  type ChangeSetId = nat

  datatype Verdict = Promoted | Refused | Threw

  type Integrate = ChangeSetId -> Verdict

  /** How far a run's own record of a task has come; everything but `Underway` is an ending. */
  datatype Progress = Underway | Succeeded | Errored | Dropped

  datatype RunTask = RunTask(id: TaskId, progress: Progress)

  datatype ChangeSet = ChangeSet(id: ChangeSetId, task: TaskId)

  datatype RunStatus = Running | RunCompleted | RunFailed

  /** `decided` holds the changesets an integration was recorded for. */
  datatype Execution = Execution(
    status: RunStatus,
    repositoryKnown: bool,
    tasks: seq<RunTask>,
    changeSets: seq<ChangeSet>,
    decided: seq<ChangeSetId>)

  datatype RecoveryReport = RecoveryReport(
    failedRuns: seq<nat>,
    resumedTasks: seq<TaskId>,
    requeuedTasks: seq<TaskId>,
    expiredLeases: seq<LeaseId>)

  const NOTHING := RecoveryReport([], [], [], [])

  // ----- Which changeset is resumed

  predicate IsResumable(c: ChangeSet, decided: seq<ChangeSetId>, task: TaskId) {
    c.task == task && c.id !in decided
  }

  /** The last changeset recorded for a task, of those no integration was recorded for. */
  function ResumableChangeSet(changeSets: seq<ChangeSet>, decided: seq<ChangeSetId>, task: TaskId): (r: Option<ChangeSet>)
    ensures r.None? <==> forall i :: 0 <= i < |changeSets| ==> !IsResumable(changeSets[i], decided, task)
    ensures r.Some? ==> exists i :: 0 <= i < |changeSets| && changeSets[i] == r.value && IsResumable(r.value, decided, task)
                                    && forall j :: i < j < |changeSets| ==> !IsResumable(changeSets[j], decided, task)
  {
    if changeSets == [] then None
    else
      var last := |changeSets| - 1;
      if IsResumable(changeSets[last], decided, task) then Some(changeSets[last])
      else ResumableChangeSet(changeSets[..last], decided, task)
  }

  /** What recovery integrates for one task of a run. */
  function Chosen(run: Execution, i: nat): Option<ChangeSet>
    requires i < |run.tasks|
  {
    if run.status.Running? && run.repositoryKnown && run.tasks[i].progress.Underway?
    then ResumableChangeSet(run.changeSets, run.decided, run.tasks[i].id) else None
  }

  predicate Promotes(run: Execution, i: nat, integrate: Integrate)
    requires i < |run.tasks|
  {
    Chosen(run, i).Some? && integrate(Chosen(run, i).value.id).Promoted?
  }

  /** The changesets applied for the first tasks of a run, in order. */
  function Applied(run: Execution, n: nat): seq<ChangeSetId>
    requires n <= |run.tasks|
  {
    if n == 0 then []
    else Applied(run, n - 1) + if Chosen(run, n - 1).Some? then [Chosen(run, n - 1).value.id] else []
  }

  /** Those of them whose outcome was recorded. */
  function NewlyDecided(run: Execution, n: nat, integrate: Integrate): seq<ChangeSetId>
    requires n <= |run.tasks|
  {
    if n == 0 then []
    else
      NewlyDecided(run, n - 1, integrate)
      + var c := Chosen(run, n - 1); if c.Some? && !integrate(c.value.id).Threw? then [c.value.id] else []
  }

  function PromotedTasks(run: Execution, n: nat, integrate: Integrate): seq<TaskId>
    requires n <= |run.tasks|
  {
    if n == 0 then []
    else PromotedTasks(run, n - 1, integrate) + if Promotes(run, n - 1, integrate) then [run.tasks[n - 1].id] else []
  }

  /** The run once the first tasks have been resumed. */
  function Resumed(run: Execution, n: nat, integrate: Integrate): (r: Execution)
    requires n <= |run.tasks|
    ensures |r.tasks| == |run.tasks|
  {
    run.(tasks := seq(|run.tasks|, i requires 0 <= i < |run.tasks| =>
           if i < n && Promotes(run, i, integrate) then run.tasks[i].(progress := Succeeded) else run.tasks[i]),
         decided := run.decided + NewlyDecided(run, n, integrate))
  }

  predicate AllSucceeded(run: Execution) {
    run.tasks != [] && forall i :: 0 <= i < |run.tasks| ==> run.tasks[i].progress.Succeeded?
  }

  /** A run still running is closed: its unfinished tasks fail, and so does it, unless every one of
      its tasks was integrated. */
  function Closed(run: Execution): Execution {
    if !run.status.Running? then run
    else
      run.(status := if AllSucceeded(run) then RunCompleted else RunFailed,
           tasks := seq(|run.tasks|, i requires 0 <= i < |run.tasks| =>
             if run.tasks[i].progress.Underway? then run.tasks[i].(progress := Errored) else run.tasks[i]))
  }

  // ----- What promotion does to the queue

  /** The row of a promoted task is completed; one that is back in the queue is claimed for that,
      with everything else in its queue, and the rest handed back. */
  function ResumeRow(s: Store, t: TaskId): Store {
    if t >= |s.rows| || !s.rows[t].kind.Work? then s
    else if s.rows[t].status.Claimed? then WithStatus(s, t, Integrated)
    else if s.rows[t].status.Submitted? then
      var claimed := ClaimQueue(s, s.rows[t].repository, s.rows[t].project);
      if claimed.rows[t].status.Claimed?
      then HandedBack(WithStatus(claimed, t, Integrated), Queue(s, s.rows[t].repository, s.rows[t].project))
      else claimed
    else s
  }

  /** What `ClaimQueue` claims, oldest first. */
  function Queue(s: Store, repository: string, project: string): (r: seq<TaskId>)
    ensures forall t: TaskId :: t in r <==> IsClaimableIn(s, t, repository, project)
  {
    QueueBefore(s, |s.rows|, repository, project)
  }

  function QueueBefore(s: Store, n: nat, repository: string, project: string): (r: seq<TaskId>)
    requires n <= |s.rows|
    ensures forall t: TaskId :: t in r <==> t < n && IsClaimableIn(s, t, repository, project)
  {
    if n == 0 then []
    else QueueBefore(s, n - 1, repository, project) + if IsClaimableIn(s, n - 1, repository, project) then [n - 1] else []
  }

  /** Retries each; a row that is no longer claimed is refused and left. */
  function HandedBack(s: Store, tasks: seq<TaskId>): Store {
    if tasks == [] then s
    else
      var so := HandedBack(s, tasks[..|tasks| - 1]);
      Retry(so, tasks[|tasks| - 1]).1
  }

  /** The promotion's bookkeeping goes through: the row was there to be claimed, or had moved on. */
  predicate GoesThrough(s: Store, t: TaskId) {
    !(t < |s.rows| && s.rows[t].kind.Work? && s.rows[t].status.Submitted? && IsHeldBack(s, t))
  }

  function ResumeRows(s: Store, tasks: seq<TaskId>): Store {
    if tasks == [] then s else ResumeRow(ResumeRows(s, tasks[..|tasks| - 1]), tasks[|tasks| - 1])
  }

  /** The promoted tasks that are reported as resumed. */
  function ResumedIds(s: Store, tasks: seq<TaskId>): seq<TaskId> {
    if tasks == [] then []
    else
      var init, last := tasks[..|tasks| - 1], tasks[|tasks| - 1];
      ResumedIds(s, init) + if GoesThrough(ResumeRows(s, init), last) then [last] else []
  }

  function AllPromoted(runs: seq<Execution>, integrate: Integrate): seq<TaskId> {
    if runs == [] then []
    else
      var last := runs[|runs| - 1];
      AllPromoted(runs[..|runs| - 1], integrate) + PromotedTasks(last, |last.tasks|, integrate)
  }

  function AllApplied(runs: seq<Execution>): seq<ChangeSetId> {
    if runs == [] then []
    else AllApplied(runs[..|runs| - 1]) + Applied(runs[|runs| - 1], |runs[|runs| - 1].tasks|)
  }

  function AllResumed(runs: seq<Execution>, integrate: Integrate): (r: seq<Execution>)
    ensures |r| == |runs|
  {
    seq(|runs|, i requires 0 <= i < |runs| => Resumed(runs[i], |runs[i].tasks|, integrate))
  }

  function AllClosed(runs: seq<Execution>): (r: seq<Execution>)
    ensures |r| == |runs|
  {
    seq(|runs|, i requires 0 <= i < |runs| => Closed(runs[i]))
  }

  function FailedRuns(runs: seq<Execution>): seq<nat> {
    if runs == [] then []
    else
      var last := |runs| - 1;
      FailedRuns(runs[..last]) + if runs[last].status.Running? && !AllSucceeded(runs[last]) then [last] else []
  }

  function LapsedLeases(s: Store, n: nat): seq<LeaseId>
    requires n <= |s.leases|
  {
    if n == 0 then [] else LapsedLeases(s, n - 1) + if IsActive(s, n - 1) && IsLapsed(s, n - 1) then [n - 1] else []
  }

  /** A whole recovery, as a function of what it finds. */
  datatype Recovered = Recovered(store: Store, runs: seq<Execution>, applied: seq<ChangeSetId>, report: RecoveryReport)

  function Recover(s: Store, runs: seq<Execution>, integrate: Integrate, elapsed: nat): Recovered {
    var expired := ExpireLeases(s);
    var promoted := AllPromoted(runs, integrate);
    var resumed := ResumeRows(expired, promoted);
    var later := resumed.(now := resumed.now + elapsed);
    var stranded := Stranded(later, later.now);
    var after := AllResumed(runs, integrate);
    Recovered(Swept(later, stranded), AllClosed(after), AllApplied(runs),
              RecoveryReport(FailedRuns(after), ResumedIds(expired, promoted), stranded, LapsedLeases(s, |s.leases|)))
  }

  // ----- The queue under promotion

  lemma {:induction false} HandedBackRows(s: Store, tasks: seq<TaskId>, t: TaskId)
    requires t < |s.rows|
    requires t in tasks ==> !s.rows[t].status.Failed?
    ensures var r := HandedBack(s, tasks);
            && |r.rows| == |s.rows| && r.leases == s.leases && r.now == s.now
            && r.rows[t] == if t in tasks && s.rows[t].status.Claimed?
                            then s.rows[t].(status := Submitted, claimedAt := None) else s.rows[t]
    decreases |tasks|
  {
    if tasks != [] {
      assert tasks == tasks[..|tasks| - 1] + [tasks[|tasks| - 1]];
      HandedBackRows(s, tasks[..|tasks| - 1], t);
    }
  }

  /** A queued row carries no claim time. */
  ghost predicate QueuedUnclaimed(s: Store) {
    forall t :: 0 <= t < |s.rows| && s.rows[t].status.Submitted? ==> s.rows[t].claimedAt.None?
  }

  /** The claim-all-and-return detour takes exactly the promoted task out of the queue: it is
      integrated, and every other row and every lease is what it was. */
  lemma DetourRemovesOnlyItsTask(s: Store, t: TaskId)
    requires QueuedUnclaimed(s) && t < |s.rows| && GoesThrough(s, t)
    ensures var r := ResumeRow(s, t);
            && |r.rows| == |s.rows| && r.leases == s.leases && r.now == s.now
            && (s.rows[t].kind.Work? && (s.rows[t].status.Claimed? || s.rows[t].status.Submitted?)
                ==> r.rows[t].status.Integrated? && r.rows[t].kind.Work?)
            && r.rows[t].after == s.rows[t].after
            && (!(s.rows[t].kind.Work? && (s.rows[t].status.Claimed? || s.rows[t].status.Submitted?)) ==> r == s)
            && (forall u :: 0 <= u < |s.rows| && u != t ==> r.rows[u] == s.rows[u])
  {
    if s.rows[t].kind.Work? && s.rows[t].status.Submitted? {
      var row := s.rows[t];
      var claimed := ClaimQueue(s, row.repository, row.project);
      var queue := Queue(s, row.repository, row.project);
      var done := WithStatus(claimed, t, Integrated);
      forall u | 0 <= u < |s.rows|
        ensures |HandedBack(done, queue).rows| == |s.rows|
        ensures HandedBack(done, queue).rows[u] == if u == t then done.rows[t] else s.rows[u]
        ensures HandedBack(done, queue).leases == s.leases && HandedBack(done, queue).now == s.now
      {
        HandedBackRows(done, queue, u);
      }
    }
  }

  /** A promoted task that waits behind another one cannot be claimed: its row stays in the queue for
      an agent to redo, and the rest of its queue is left claimed. That is the only way. */
  lemma PromotedRowIsIntegratedIff(s: Store, t: TaskId)
    requires QueuedUnclaimed(s) && t < |s.rows| && s.rows[t].kind.Work?
    requires s.rows[t].status.Claimed? || s.rows[t].status.Submitted?
    ensures HasStatus(ResumeRow(s, t), t, Integrated) <==> GoesThrough(s, t)
    ensures !GoesThrough(s, t) ==>
      && HasStatus(ResumeRow(s, t), t, Submitted)
      && forall u :: IsClaimableIn(s, u, s.rows[t].repository, s.rows[t].project) ==> HasStatus(ResumeRow(s, t), u, Claimed)
  {
    if GoesThrough(s, t) {
      DetourRemovesOnlyItsTask(s, t);
    }
  }

  /** Work that promotion can settle. */
  predicate IsLive(row: Row) {
    row.kind.Work? && (row.status.Claimed? || row.status.Submitted?)
  }

  /** No task of the list is queued behind one that is neither over nor open. */
  ghost predicate Unheld(s: Store, tasks: seq<TaskId>) {
    forall t: TaskId :: t in tasks ==> GoesThrough(s, t)
  }

  /** A row that was resumed is integrated; another stands, or was left claimed by a detour that did not
      go through. */
  predicate RowAfter(s: Store, r: Store, resumed: seq<TaskId>, whole: bool, t: TaskId)
    requires t < |s.rows| && t < |r.rows|
  {
    && r.rows[t].after == s.rows[t].after
    && if t in resumed && IsLive(s.rows[t]) then r.rows[t].kind.Work? && r.rows[t].status.Integrated?
       else
         || r.rows[t] == s.rows[t]
         || (&& !whole && s.rows[t].kind.Work? && s.rows[t].status.Submitted?
             && r.rows[t] == s.rows[t].(status := Claimed, claimedAt := Some(s.now)))
  }

  ghost predicate Touched(s: Store, r: Store, resumed: seq<TaskId>, whole: bool) {
    && |r.rows| == |s.rows| && r.leases == s.leases && r.now == s.now
    && forall t :: 0 <= t < |s.rows| ==> RowAfter(s, r, resumed, whole, t)
  }

  lemma TouchedIsUnclaimed(s: Store, r: Store, resumed: seq<TaskId>, whole: bool)
    requires QueuedUnclaimed(s) && Touched(s, r, resumed, whole)
    ensures QueuedUnclaimed(r)
  {
    forall t | 0 <= t < |r.rows| && r.rows[t].status.Submitted? ensures r.rows[t].claimedAt.None? {
      assert RowAfter(s, r, resumed, whole, t);
    }
  }

  /** What holds a promoted task back was there when the pass began. */
  lemma HeldBackFromTheStart(s: Store, r: Store, resumed: seq<TaskId>, whole: bool, t: TaskId)
    requires Touched(s, r, resumed, whole) && !GoesThrough(r, t)
    ensures !GoesThrough(s, t)
  {
    assert RowAfter(s, r, resumed, whole, t);
    assert RowAfter(s, r, resumed, whole, r.rows[t].after.value);
  }

  lemma ResumedOneMore(s: Store, mid: Store, resumed: seq<TaskId>, whole: bool, t: TaskId)
    requires QueuedUnclaimed(mid) && Touched(s, mid, resumed, whole) && GoesThrough(mid, t)
    ensures Touched(s, ResumeRow(mid, t), resumed + [t], whole)
  {
    hide QueuedUnclaimed, HandedBack, Queue, IsHeldBack;
    if t < |s.rows| {
      DetourRemovesOnlyItsTask(mid, t);
    }
    hide ResumeRow, GoesThrough;
    forall u | 0 <= u < |s.rows| ensures RowAfter(s, ResumeRow(mid, t), resumed + [t], whole, u) {
      assert RowAfter(s, mid, resumed, whole, u);
    }
  }

  lemma CaughtSome(s: Store, mid: Store, resumed: seq<TaskId>, whole: bool, t: TaskId)
    requires Touched(s, mid, resumed, whole) && !GoesThrough(mid, t)
    ensures Touched(s, ResumeRow(mid, t), resumed, false)
  {
    hide HandedBack, Queue, IsHeldBack;
    forall u | 0 <= u < |s.rows| ensures RowAfter(s, ResumeRow(mid, t), resumed, false, u) {
      assert RowAfter(s, mid, resumed, whole, u);
    }
  }

  lemma TouchedNothing(s: Store)
    ensures Touched(s, s, [], true)
  {
  }

  /** Promotion integrates the rows it reports as resumed. One it does not was held back from the start;
      where every row was resumed, nothing else is touched. */
  lemma {:induction false} PromotionTouches(s: Store, tasks: seq<TaskId>)
    requires QueuedUnclaimed(s)
    ensures var resumed := ResumedIds(s, tasks);
            && |resumed| <= |tasks| && Touched(s, ResumeRows(s, tasks), resumed, resumed == tasks)
            && (forall t: TaskId :: t in tasks && t !in resumed ==> !GoesThrough(s, t))
            && (resumed != tasks ==> !Unheld(s, tasks))
    decreases |tasks|
  {
    hide ResumeRow, GoesThrough, QueuedUnclaimed, Touched;
    if tasks == [] {
      TouchedNothing(s);
    } else {
      var init, last := tasks[..|tasks| - 1], tasks[|tasks| - 1];
      assert tasks == init + [last];
      PromotionTouches(s, init);
      var mid, resumed := ResumeRows(s, init), ResumedIds(s, init);
      TouchedIsUnclaimed(s, mid, resumed, resumed == init);
      if GoesThrough(mid, last) {
        ResumedOneMore(s, mid, resumed, resumed == init, last);
        assert ResumedIds(s, tasks) == tasks <==> resumed == init;
      } else {
        HeldBackFromTheStart(s, mid, resumed, resumed == init, last);
        assert ResumedIds(s, tasks) == resumed && last in tasks;
        CaughtSome(s, mid, resumed, resumed == init, last);
      }
    }
  }

  // ----- What a recovery establishes

  /** No run is left running. In a run that was, every task has ended: succeeded where its changeset
      was promoted, failed where it was still under way, and untouched where it had ended; the run
      completed exactly when every task of it succeeded. A run that was not running is left alone. */
  lemma NoRunIsLeftRunning(s: Store, runs: seq<Execution>, integrate: Integrate, elapsed: nat, i: nat)
    requires i < |runs|
    ensures var r := Recover(s, runs, integrate, elapsed).runs;
            && |r| == |runs| && !r[i].status.Running? && |r[i].tasks| == |runs[i].tasks|
            && (!runs[i].status.Running? ==> r[i] == runs[i])
            && (runs[i].status.Running? ==>
                  && (r[i].status.RunCompleted?
                      <==> r[i].tasks != [] && forall k :: 0 <= k < |r[i].tasks| ==> r[i].tasks[k].progress.Succeeded?)
                  && forall k :: 0 <= k < |runs[i].tasks| ==>
                       && r[i].tasks[k].id == runs[i].tasks[k].id
                       && r[i].tasks[k].progress
                          == if Promotes(runs[i], k, integrate) then Succeeded
                             else if runs[i].tasks[k].progress.Underway? then Errored else runs[i].tasks[k].progress)
  {
    var run := runs[i];
    if !run.status.Running? {
      IdleRunStands(run, |run.tasks|, integrate);
    } else {
      var mid := Resumed(run, |run.tasks|, integrate);
      assert forall k :: 0 <= k < |run.tasks| ==>
        mid.tasks[k].progress.Succeeded? == Closed(mid).tasks[k].progress.Succeeded?;
    }
  }

  /** Reported as failed are exactly the runs found running that end failed, oldest first. */
  lemma FailedRunsAreReported(s: Store, runs: seq<Execution>, integrate: Integrate, elapsed: nat, i: nat)
    ensures var r := Recover(s, runs, integrate, elapsed);
            && (i in r.report.failedRuns <==> i < |runs| && runs[i].status.Running? && |r.runs| == |runs| && r.runs[i].status.RunFailed?)
            && Increasing(r.report.failedRuns)
  {
    hide Stranded, Swept, ExpireFirst, ResumeRows, ResumedIds, AllPromoted, AllApplied, LapsedLeases, PromotedTasks,
         NewlyDecided, AllSucceeded, Increasing;
    FailedAre(AllResumed(runs, integrate), i);
  }

  lemma {:induction false} FailedAre(runs: seq<Execution>, i: nat)
    ensures i in FailedRuns(runs) <==> i < |runs| && runs[i].status.Running? && !AllSucceeded(runs[i])
    ensures Increasing(FailedRuns(runs)) && forall k :: k in FailedRuns(runs) ==> k < |runs|
    decreases |runs|
  {
    hide AllSucceeded, Increasing;
    if runs == [] {
      NothingIncreases();
    } else {
      var last := |runs| - 1;
      FailedAre(runs[..last], i);
      IncreasingOne(FailedRuns(runs[..last]), last);
    }
  }

  /** The leases reported as expired are exactly those that had lapsed, oldest first. */
  lemma {:induction false} LapsedAreReported(s: Store, n: nat)
    requires n <= |s.leases|
    ensures forall l: LeaseId :: l in LapsedLeases(s, n) <==> l < n && IsActive(s, l) && IsLapsed(s, l)
    ensures Increasing(LapsedLeases(s, n))
    decreases n
  {
    hide Increasing;
    if n == 0 {
      NothingIncreases();
    } else {
      LapsedAreReported(s, n - 1);
      IncreasingOne(LapsedLeases(s, n - 1), n - 1);
    }
  }

  lemma {:induction false} IdleRunStands(run: Execution, n: nat, integrate: Integrate)
    requires !run.status.Running? && n <= |run.tasks|
    ensures Resumed(run, n, integrate) == run && NewlyDecided(run, n, integrate) == []
    ensures PromotedTasks(run, n, integrate) == [] && Applied(run, n) == []
    decreases n
  {
    if n > 0 {
      IdleRunStands(run, n - 1, integrate);
    }
  }

  ghost predicate UniqueChangeSets(runs: seq<Execution>) {
    forall r, q, i, j ::
      (&& 0 <= r < |runs| && 0 <= i < |runs[r].changeSets|
       && 0 <= q < |runs| && 0 <= j < |runs[q].changeSets|
       && runs[r].changeSets[i].id == runs[q].changeSets[j].id)
      ==> r == q && i == j
  }

  ghost predicate UniqueTasks(run: Execution) {
    forall i, j :: 0 <= i < j < |run.tasks| ==> run.tasks[i].id != run.tasks[j].id
  }

  ghost predicate NoRepeats(ids: seq<ChangeSetId>) {
    forall i, j :: 0 <= i < j < |ids| ==> ids[i] != ids[j]
  }

  /** The changeset was recorded by this run, and no outcome was. */
  predicate IsUndecidedIn(run: Execution, id: ChangeSetId) {
    id !in run.decided && exists i :: 0 <= i < |run.changeSets| && run.changeSets[i].id == id
  }

  lemma {:induction false} AppliedOfRun(runs: seq<Execution>, r: nat, n: nat)
    requires UniqueChangeSets(runs) && r < |runs| && UniqueTasks(runs[r]) && n <= |runs[r].tasks|
    ensures NoRepeats(Applied(runs[r], n))
    ensures forall id :: id in Applied(runs[r], n) ==>
      IsUndecidedIn(runs[r], id) && exists i :: 0 <= i < n && Chosen(runs[r], i).Some? && Chosen(runs[r], i).value.id == id
    decreases n
  {
    if n > 0 {
      AppliedOfRun(runs, r, n - 1);
      if Chosen(runs[r], n - 1).Some? && Chosen(runs[r], n - 1).value.id in Applied(runs[r], n - 1) {
        var i :| 0 <= i < n - 1 && Chosen(runs[r], i).Some? && Chosen(runs[r], i).value.id == Chosen(runs[r], n - 1).value.id;
        ChosenDiffer(runs, r, i, n - 1);
      }
    }
  }

  lemma ChosenDiffer(runs: seq<Execution>, r: nat, i: nat, j: nat)
    requires UniqueChangeSets(runs) && r < |runs| && UniqueTasks(runs[r]) && i < j < |runs[r].tasks|
    requires Chosen(runs[r], i).Some? && Chosen(runs[r], j).Some?
    ensures Chosen(runs[r], i).value.id != Chosen(runs[r], j).value.id
  {
    var sets := runs[r].changeSets;
    var a :| 0 <= a < |sets| && sets[a] == Chosen(runs[r], i).value;
    var b :| 0 <= b < |sets| && sets[b] == Chosen(runs[r], j).value;
  }

  /** No changeset is applied twice, and none that already has a recorded outcome. */
  lemma {:induction false} NothingDecidedIsApplied(runs: seq<Execution>, n: nat)
    requires UniqueChangeSets(runs) && n <= |runs| && forall r :: 0 <= r < |runs| ==> UniqueTasks(runs[r])
    ensures NoRepeats(AllApplied(runs[..n]))
    ensures forall id :: id in AllApplied(runs[..n]) ==> exists r :: 0 <= r < n && IsUndecidedIn(runs[r], id)
    decreases n
  {
    if n > 0 {
      NothingDecidedIsApplied(runs, n - 1);
      AppliedOfRun(runs, n - 1, |runs[n - 1].tasks|);
      assert runs[..n][..n - 1] == runs[..n - 1];
      var before, last := AllApplied(runs[..n - 1]), Applied(runs[n - 1], |runs[n - 1].tasks|);
      forall a, b | 0 <= a < |before| && 0 <= b < |last| ensures before[a] != last[b] {
        assert before[a] in before && last[b] in last;
        var r :| 0 <= r < n - 1 && IsUndecidedIn(runs[r], before[a]);
        assert IsUndecidedIn(runs[n - 1], last[b]);
      }
    }
  }

  /** The last undecided changeset of an unfinished task, in a running run of a repository that is known. */
  predicate IsStrandedResult(run: Execution, i: int, k: int, id: ChangeSetId) {
    && run.status == Running && run.repositoryKnown && 0 <= i < |run.tasks| && run.tasks[i].progress == Underway
    && 0 <= k < |run.changeSets| && run.changeSets[k] == ChangeSet(id, run.tasks[i].id) && id !in run.decided
    && forall j :: k < j < |run.changeSets| ==>
         run.changeSets[j].task != run.tasks[i].id || run.changeSets[j].id in run.decided
  }

  lemma ChosenIff(run: Execution, i: nat, id: ChangeSetId)
    requires i < |run.tasks|
    ensures Chosen(run, i).Some? && Chosen(run, i).value.id == id <==> exists k :: IsStrandedResult(run, i, k, id)
  {
    var c := Chosen(run, i);
    if c.Some? {
      var k :| 0 <= k < |run.changeSets| && run.changeSets[k] == c.value && IsResumable(c.value, run.decided, run.tasks[i].id)
               && forall j :: k < j < |run.changeSets| ==> !IsResumable(run.changeSets[j], run.decided, run.tasks[i].id);
      assert IsStrandedResult(run, i, k, c.value.id);
      forall m | IsStrandedResult(run, i, m, id) ensures m == k {
        assert IsResumable(run.changeSets[m], run.decided, run.tasks[i].id);
        assert IsResumable(run.changeSets[k], run.decided, run.tasks[i].id);
      }
    } else if k :| IsStrandedResult(run, i, k, id) {
      assert IsResumable(run.changeSets[k], run.decided, run.tasks[i].id);
    }
  }

  lemma {:induction false} AppliedInRunIff(run: Execution, n: nat, id: ChangeSetId)
    requires n <= |run.tasks|
    ensures id in Applied(run, n) <==> exists i, k :: i < n && IsStrandedResult(run, i, k, id)
    decreases n
  {
    hide Chosen, IsStrandedResult;
    if n == 0 {
      assert forall i, k :: IsStrandedResult(run, i, k, id) ==> i >= 0 by {
        ResultsAreOfTasks(run, id);
      }
    } else {
      AppliedInRunIff(run, n - 1, id);
      ChosenIff(run, n - 1, id);
    }
  }

  lemma ResultsAreOfTasks(run: Execution, id: ChangeSetId)
    ensures forall i, k :: IsStrandedResult(run, i, k, id) ==> 0 <= i < |run.tasks|
  {
  }

  /** Handed to the integration service is exactly each such changeset, of whichever run. */
  lemma {:induction false} AppliedIff(runs: seq<Execution>, id: ChangeSetId)
    ensures id in AllApplied(runs) <==> exists r, i, k :: 0 <= r < |runs| && IsStrandedResult(runs[r], i, k, id)
    decreases |runs|
  {
    hide Applied, IsStrandedResult;
    if runs != [] {
      var init, last := runs[..|runs| - 1], runs[|runs| - 1];
      AppliedIff(init, id);
      AppliedInRunIff(last, |last.tasks|, id);
      ResultsAreOfTasks(last, id);
      if r, i, k :| 0 <= r < |init| && IsStrandedResult(init[r], i, k, id) {
        assert IsStrandedResult(runs[r], i, k, id);
      }
      if r, i, k :| 0 <= r < |runs| && IsStrandedResult(runs[r], i, k, id) {
        assert r < |init| ==> IsStrandedResult(init[r], i, k, id);
      }
    }
  }

  // ----- The claims

  /** Claims were made in the past. */
  ghost predicate ClaimsArePast(s: Store) {
    forall t :: 0 <= t < |s.rows| && s.rows[t].claimedAt.Some? ==> s.rows[t].claimedAt.value <= s.now
  }

  predicate IsStranded(s: Store, t: TaskId) {
    HasStatus(s, t, Claimed) && s.rows[t].kind.Work? && !IsLeased(s, t)
  }

  lemma StrandedIs(s: Store, claimedBefore: Time)
    ensures forall t: TaskId :: t in Stranded(s, claimedBefore)
              <==> IsStranded(s, t) && (s.rows[t].claimedAt.Some? ==> s.rows[t].claimedAt.value < claimedBefore)
  {
    hide Listing;
    ListingIsExact(s.rows, ToReap(claimedBefore));
  }

  /** After a sweep every claimed task is leased exactly when no unleased claim was as young as the bound. */
  lemma SweepLeavesLeasedIff(s: Store, claimedBefore: Time)
    ensures var r := Swept(s, Stranded(s, claimedBefore));
            && |r.rows| == |s.rows| && r.leases == s.leases && r.now == s.now
            && ((forall t: TaskId :: !IsStranded(r, t))
                <==> forall t: TaskId :: IsStranded(s, t) ==> t in Stranded(s, claimedBefore))
  {
    hide Stranded;
    StrandedIs(s, claimedBefore);
    var r := Swept(s, Stranded(s, claimedBefore));
    forall t: TaskId ensures IsStranded(r, t) <==> IsStranded(s, t) && t !in Stranded(s, claimedBefore) {
      assert IsLeased(r, t) == IsLeased(s, t);
    }
  }

  lemma {:induction false} HandingBackKeepsPast(s: Store, tasks: seq<TaskId>)
    requires ClaimsArePast(s)
    ensures ClaimsArePast(HandedBack(s, tasks)) && HandedBack(s, tasks).now == s.now
    ensures HandedBack(s, tasks).leases == s.leases && |HandedBack(s, tasks).rows| == |s.rows|
    decreases |tasks|
  {
    if tasks != [] {
      HandingBackKeepsPast(s, tasks[..|tasks| - 1]);
    }
  }

  lemma {:induction false} PromotionKeepsPast(s: Store, tasks: seq<TaskId>)
    requires ClaimsArePast(s)
    ensures ClaimsArePast(ResumeRows(s, tasks)) && ResumeRows(s, tasks).now == s.now
    ensures ResumeRows(s, tasks).leases == s.leases && |ResumeRows(s, tasks).rows| == |s.rows|
    decreases |tasks|
  {
    if tasks != [] {
      PromotionKeepsPast(s, tasks[..|tasks| - 1]);
      ResumingKeepsPast(ResumeRows(s, tasks[..|tasks| - 1]), tasks[|tasks| - 1]);
    }
  }

  lemma ResumingKeepsPast(s: Store, t: TaskId)
    requires ClaimsArePast(s)
    ensures ClaimsArePast(ResumeRow(s, t)) && ResumeRow(s, t).now == s.now
    ensures ResumeRow(s, t).leases == s.leases && |ResumeRow(s, t).rows| == |s.rows|
  {
    if t < |s.rows| && s.rows[t].kind.Work? && s.rows[t].status.Submitted? {
      var claimed := ClaimQueue(s, s.rows[t].repository, s.rows[t].project);
      assert ClaimsArePast(claimed) && ClaimsArePast(WithStatus(claimed, t, Integrated));
      HandingBackKeepsPast(WithStatus(claimed, t, Integrated), Queue(s, s.rows[t].repository, s.rows[t].project));
    }
  }

  lemma ExpiryKeepsShape(s: Store)
    ensures ClaimsArePast(s) ==> ClaimsArePast(ExpireLeases(s))
    ensures QueuedUnclaimed(s) ==> QueuedUnclaimed(ExpireLeases(s))
  {
    hide ExpireFirst;
    forall t | 0 <= t < |s.rows|
      ensures var r := ExpireLeases(s).rows[t];
              r == s.rows[t] || (s.rows[t].status.Claimed? && r == s.rows[t].(status := Submitted, claimedAt := None))
    {
      ExpiryMoves(s, |s.leases|, t);
    }
  }

  /** After a recovery every claimed task has an active lease, whatever the crash left. */
  lemma EveryClaimIsLeased(s: Store, runs: seq<Execution>, integrate: Integrate, elapsed: nat, t: TaskId)
    requires ClaimsArePast(s) && elapsed > 0
    ensures !IsStranded(Recover(s, runs, integrate, elapsed).store, t)
  {
    hide ExpireLeases, ResumeRows, Stranded, Swept;
    ExpiryKeepsShape(s);
    var promoted := AllPromoted(runs, integrate);
    PromotionKeepsPast(ExpireLeases(s), promoted);
    var resumed := ResumeRows(ExpireLeases(s), promoted);
    var later := resumed.(now := resumed.now + elapsed);
    StrandedIs(later, later.now);
    SweepLeavesLeasedIff(later, later.now);
    assert forall u: TaskId :: IsStranded(later, u) ==> u in Stranded(later, later.now);
  }

  predicate RowEnds(found: Store, r: Store, report: RecoveryReport, promoted: seq<TaskId>, t: TaskId, elapsed: nat)
    requires t < |found.rows| && t < |r.rows|
  {
    var row := found.rows[t];
    if t in report.resumedTasks && IsLive(row) then r.rows[t].status.Integrated? && t !in report.requeuedTasks
    else if t in report.requeuedTasks then
      IsLive(row) && !IsLeased(found, t) && r.rows[t] == row.(status := Submitted, claimedAt := None)
    else
      || r.rows[t] == row
      || (&& report.resumedTasks != promoted && row.kind.Work? && row.status.Submitted?
          && (elapsed == 0 || IsLeased(found, t))
          && r.rows[t] == row.(status := Claimed, claimedAt := Some(found.now)))
  }

  /** A promoted task is integrated, reported as resumed, and neither requeued nor failed, unless its row
      was back in the queue behind another one; then it stays there. A task that was not promoted keeps
      its row, but for the claims that lapsed or were stranded. What a detour that did not go through
      leaves claimed is put back by the sweep, where it took time and no lease was out on a queued task. */
  lemma PromotedIsNeitherRequeuedNorFailed(s: Store, runs: seq<Execution>, integrate: Integrate, elapsed: nat, t: TaskId)
    requires QueuedUnclaimed(s) && t < |s.rows|
    ensures |ExpireLeases(s).rows| == |s.rows|
    ensures var r := Recover(s, runs, integrate, elapsed);
            var found, promoted := ExpireLeases(s), AllPromoted(runs, integrate);
            && |r.store.rows| == |s.rows|
            && RowEnds(found, r.store, r.report, promoted, t, elapsed)
            && (t in promoted && t !in r.report.resumedTasks ==> !GoesThrough(found, t))
            && (Unheld(found, promoted) ==> r.report.resumedTasks == promoted)
  {
    hide ExpireFirst, ResumeRows, ResumedIds, Stranded, Swept, IsHeldBack, Touched, Unheld,
         AllResumed, AllClosed, AllPromoted, AllApplied, FailedRuns, LapsedLeases, GoesThrough;
    ExpiryKeepsShape(s);
    var found, promoted := ExpireLeases(s), AllPromoted(runs, integrate);
    PromotionTouches(found, promoted);
    var resumed := ResumeRows(found, promoted);
    var later := resumed.(now := resumed.now + elapsed);
    StrandedIs(later, later.now);
    TouchedRow(found, resumed, ResumedIds(found, promoted), ResumedIds(found, promoted) == promoted, t);
    assert IsLeased(later, t) == IsLeased(found, t);
    hide IsLeased;
    SweptRow(later, Stranded(later, later.now), t);
  }

  /** With one runner for each task and a pass that takes time, a task that was not resumed ends where the
      expiry of the lapsed leases left it, or back in the queue. */
  lemma NothingElseIsTouched(s: Store, runs: seq<Execution>, integrate: Integrate, elapsed: nat, t: TaskId)
    requires QueuedUnclaimed(s) && OneRunner(s) && elapsed > 0 && t < |s.rows|
    ensures var r := Recover(s, runs, integrate, elapsed);
            && |ExpireLeases(s).rows| == |s.rows| && |r.store.rows| == |s.rows|
            && (t !in r.report.resumedTasks || !IsLive(ExpireLeases(s).rows[t]) ==>
                  var row := ExpireLeases(s).rows[t];
                  || r.store.rows[t] == row
                  || (t in r.report.requeuedTasks && r.store.rows[t] == row.(status := Submitted, claimedAt := None)))
  {
    hide Recover, ExpireFirst, AllPromoted, GoesThrough, Unheld;
    PromotedIsNeitherRequeuedNorFailed(s, runs, integrate, elapsed, t);
    ExpiryKeepsOneRunner(s, |s.leases|);
  }

  lemma SweptRow(s: Store, tasks: seq<TaskId>, t: TaskId)
    requires t < |s.rows|
    ensures var r := Swept(s, tasks);
            && |r.rows| == |s.rows| && r.leases == s.leases && r.now == s.now
            && r.rows[t] == if t in tasks then s.rows[t].(status := Submitted, claimedAt := None) else s.rows[t]
  {
  }

  lemma TouchedRow(s: Store, r: Store, resumed: seq<TaskId>, whole: bool, t: TaskId)
    requires Touched(s, r, resumed, whole) && t < |s.rows|
    ensures |r.rows| == |s.rows| && r.leases == s.leases && r.now == s.now && RowAfter(s, r, resumed, whole, t)
  {
  }

  // ----- A promoted task behind a retried one

  const QUEUED := Row(Work, "r", "p", "b", "a", None, None, None, Submitted, None, 0)
  const RUNNER := LeaseRequest("w", None, None, {}, 1, 10)

  const HELD := QUEUED.(after := Some(0))

  /** A task fails, the one that waited on it is leased, the first is retried, and the lease lapses. */
  const RETRIED: seq<Op> :=
    [OpSubmit(QUEUED, false), OpSubmit(HELD, false),
     OpLease(Some(0), RUNNER), OpComplete(0, false), OpFinish(0, Completed),
     OpLease(Some(1), RUNNER), OpRetry(0), Tick(10)]

  const UNFINISHED := Execution(Running, true, [RunTask(1, Underway)], [ChangeSet(0, 1)], [])

  const FIRST := WorkLease(0, "w", "r", Active, 10)
  const SECOND := WorkLease(1, "w", "r", Active, 10)

  const BUSY := QUEUED.(status := Claimed, claimedAt := Some(0))
  const FAILED := BUSY.(status := Failed)
  const TAKEN := HELD.(status := Claimed, claimedAt := Some(0))
  const OVER := FIRST.(status := Ended(Completed))

  lemma RunsTo(s: Store, ops: seq<Op>, k: nat, mid: Store, next: Store)
    requires k < |ops| && Run(s, ops[..k]) == mid && Call(mid, ops[k]).1 == next
    ensures Run(s, ops[..k + 1]) == next
  {
    assert ops[..k + 1][..k] == ops[..k];
  }

  lemma LeasesNamed(s: Store, t: TaskId, r: LeaseRequest)
    requires NoneLapsed(s) && IsEligible(s, t, r)
    ensures Call(s, OpLease(Some(t), r)).1 == Leased(s, t, r)
  {
    NothingToExpire(s, |s.leases|);
  }

  lemma TaskIsLeased(s: Store)
    requires s == Store(0, [], [])
    ensures Run(s, RETRIED[..3]) == Store(0, [BUSY, HELD], [FIRST])
  {
    hide ExpireFirst, LeaseNext;
    assert RETRIED[..0] == [];
    RunsTo(s, RETRIED, 0, s, Store(0, [QUEUED], []));
    RunsTo(s, RETRIED, 1, Store(0, [QUEUED], []), Store(0, [QUEUED, HELD], []));
    LeasesNamed(Store(0, [QUEUED, HELD], []), 0, RUNNER);
    RunsTo(s, RETRIED, 2, Store(0, [QUEUED, HELD], []), Store(0, [BUSY, HELD], [FIRST]));
  }

  lemma TaskFails(s: Store)
    requires Run(s, RETRIED[..3]) == Store(0, [BUSY, HELD], [FIRST])
    ensures Run(s, RETRIED[..5]) == Store(0, [FAILED, HELD], [OVER])
  {
    hide ExpireFirst, LeaseNext, Run;
    RunsTo(s, RETRIED, 3, Store(0, [BUSY, HELD], [FIRST]), Store(0, [FAILED, HELD], [FIRST]));
    RunsTo(s, RETRIED, 4, Store(0, [FAILED, HELD], [FIRST]), Store(0, [FAILED, HELD], [OVER]));
  }

  lemma TaskIsRetried(s: Store)
    requires Run(s, RETRIED[..5]) == Store(0, [FAILED, HELD], [OVER])
    ensures Run(s, RETRIED) == Store(10, [QUEUED, TAKEN], [OVER, SECOND])
  {
    hide ExpireFirst, LeaseNext, Run;
    LeasesNamed(Store(0, [FAILED, HELD], [OVER]), 1, RUNNER);
    RunsTo(s, RETRIED, 5, Store(0, [FAILED, HELD], [OVER]), Store(0, [FAILED, TAKEN], [OVER, SECOND]));
    RunsTo(s, RETRIED, 6, Store(0, [FAILED, TAKEN], [OVER, SECOND]), Store(0, [QUEUED, TAKEN], [OVER, SECOND]));
    RunsTo(s, RETRIED, 7, Store(0, [QUEUED, TAKEN], [OVER, SECOND]), Store(10, [QUEUED, TAKEN], [OVER, SECOND]));
    assert RETRIED[..8] == RETRIED;
  }

  const LAPSED := Store(10, [QUEUED, HELD], [OVER, SECOND.(status := Ended(Expired))])

  lemma LapsedReturns()
    ensures ExpireLeases(Store(10, [QUEUED, TAKEN], [OVER, SECOND])) == LAPSED
  {
    var s := Store(10, [QUEUED, TAKEN], [OVER, SECOND]);
    assert ExpireFirst(s, 0) == s;
    assert ExpireFirst(s, 1) == s;
  }

  lemma PromotionIsHeldBack()
    ensures ResumedIds(LAPSED, [1]) == [] && |ResumeRows(LAPSED, [1]).rows| == 2 && ResumeRows(LAPSED, [1]).rows[1] == HELD
  {
    hide HandedBack, Queue;
    ResumeNobody(LAPSED);
    RowsOne(LAPSED, [], 1);
    assert [] + [1] == [1];
    assert !GoesThrough(LAPSED, 1);
  }

  lemma UnfinishedIsPromoted(integrate: Integrate)
    requires integrate(0).Promoted?
    ensures AllPromoted([UNFINISHED], integrate) == [1] && AllApplied([UNFINISHED]) == [0]
    ensures Promotes(UNFINISHED, 0, integrate)
  {
    assert UNFINISHED.changeSets[..0] == [] && [UNFINISHED][..0] == [];
    ResumedNothing(UNFINISHED, integrate);
    assert Chosen(UNFINISHED, 0) == Some(ChangeSet(0, 1));
    hide Chosen, Resumed, PromotedTasks, Applied;
    ResumedOne(UNFINISHED, 0, integrate);
  }

  /** A recovery then integrates the second task's changeset and completes its run, but leaves its row in
      the queue, to be done again. */
  lemma PromotedBehindARetry(elapsed: nat)
    ensures var s := Run(Store(0, [], []), RETRIED);
            var r := Recover(s, [UNFINISHED], _ => Promoted, elapsed);
            && r.applied == [0] && |r.runs| == 1 && r.runs[0].status.RunCompleted?
            && HasStatus(s, 1, Claimed) && HasStatus(r.store, 1, Submitted) && r.report.resumedTasks == []
  {
    hide Run;
    TaskIsLeased(Store(0, [], []));
    TaskFails(Store(0, [], []));
    TaskIsRetried(Store(0, [], []));
    LapsedReturns();
    PromotionIsHeldBack();
    var s, integrate := Store(10, [QUEUED, TAKEN], [OVER, SECOND]), _ => Promoted;
    UnfinishedIsPromoted(integrate);
    NoRunIsLeftRunning(s, [UNFINISHED], integrate, elapsed, 0);
    var resumed := ResumeRows(ExpireLeases(s), [1]);
    var later := resumed.(now := resumed.now + elapsed);
    StrandedIs(later, later.now);
    SweptRow(later, Stranded(later, later.now), 1);
    hide ExpireLeases, ResumeRows, ResumedIds, Stranded, Swept, AllPromoted, AllApplied, AllResumed, AllClosed, Chosen;
  }

  // ----- The fixed point

  ghost predicate NoneRunning(runs: seq<Execution>) {
    forall i :: 0 <= i < |runs| ==> !runs[i].status.Running?
  }

  lemma {:induction false} IdleRunsAreLeftAlone(runs: seq<Execution>, integrate: Integrate)
    requires NoneRunning(runs)
    ensures AllPromoted(runs, integrate) == [] && AllApplied(runs) == [] && FailedRuns(runs) == []
    ensures AllResumed(runs, integrate) == runs && AllClosed(runs) == runs
    decreases |runs|
  {
    if runs != [] {
      IdleRunsAreLeftAlone(runs[..|runs| - 1], integrate);
      forall i | 0 <= i < |runs| ensures Resumed(runs[i], |runs[i].tasks|, integrate) == runs[i] {
        IdleRunStands(runs[i], |runs[i].tasks|, integrate);
      }
      IdleRunStands(runs[|runs| - 1], |runs[|runs| - 1].tasks|, integrate);
    }
  }

  lemma {:induction false} NoLapsedLeases(s: Store, n: nat)
    requires NoneLapsed(s) && n <= |s.leases|
    ensures LapsedLeases(s, n) == []
    decreases n
  {
    if n > 0 {
      NoLapsedLeases(s, n - 1);
    }
  }

  /** On a store with nothing running, nothing stranded and nothing lapsed, a recovery does nothing. */
  lemma NothingToRecover(s: Store, runs: seq<Execution>, integrate: Integrate, elapsed: nat)
    requires NoneRunning(runs) && NoneLapsed(s) && forall t: TaskId :: !IsStranded(s, t)
    ensures Recover(s, runs, integrate, elapsed) == Recovered(s.(now := s.now + elapsed), runs, [], NOTHING)
  {
    NothingToExpire(s, |s.leases|);
    NoLapsedLeases(s, |s.leases|);
    NothingStranded(s, elapsed);
    SweptNothing(s.(now := s.now + elapsed));
    hide ExpireFirst, Stranded, Swept, AllPromoted, AllApplied, AllResumed, AllClosed, FailedRuns, LapsedLeases, IsStranded;
    IdleRunsAreLeftAlone(runs, integrate);
  }

  lemma NothingStranded(s: Store, elapsed: nat)
    requires forall t: TaskId :: !IsStranded(s, t)
    ensures var later := s.(now := s.now + elapsed); Stranded(later, later.now) == []
  {
    hide Stranded;
    var later := s.(now := s.now + elapsed);
    StrandedIs(later, later.now);
    forall t: TaskId ensures !IsStranded(later, t) {
      assert IsLeased(later, t) == IsLeased(s, t);
      assert !IsStranded(s, t);
    }
    if Stranded(later, later.now) != [] {
      HasMember(Stranded(later, later.now));
    }
  }

  lemma HasMember(ids: seq<TaskId>)
    requires ids != []
    ensures exists t: TaskId :: t in ids
  {
    assert ids[0] in ids;
  }

  lemma NothingIsLeft(s: Store, runs: seq<Execution>, integrate: Integrate, elapsed: nat)
    requires ClaimsArePast(s) && elapsed > 0
    ensures var r := Recover(s, runs, integrate, elapsed);
            NoneRunning(r.runs) && forall t: TaskId :: !IsStranded(r.store, t)
  {
    var r := Recover(s, runs, integrate, elapsed);
    assert |r.runs| == |runs|;
    hide Recover;
    forall i | 0 <= i < |r.runs| ensures !r.runs[i].status.Running? {
      NoRunIsLeftRunning(s, runs, integrate, elapsed, i);
    }
    forall t: TaskId ensures !IsStranded(r.store, t) {
      EveryClaimIsLeased(s, runs, integrate, elapsed, t);
    }
  }

  /** A second recovery, at any later time before a lease lapses, resumes, requeues, fails and expires
      nothing, and changes nothing. */
  lemma RecoveryIsAFixedPoint(s: Store, runs: seq<Execution>, integrate: Integrate, elapsed: nat, wait: nat,
                              integrate': Integrate, elapsed': nat)
    requires ClaimsArePast(s) && elapsed > 0
    requires var r := Recover(s, runs, integrate, elapsed).store;
             NoneLapsed(r.(now := r.now + wait))
    ensures var r := Recover(s, runs, integrate, elapsed);
            var again := r.store.(now := r.store.now + wait);
            Recover(again, r.runs, integrate', elapsed')
            == Recovered(again.(now := again.now + elapsed'), r.runs, [], NOTHING)
  {
    hide Recover, NoneRunning, NoneLapsed;
    NothingIsLeft(s, runs, integrate, elapsed);
    var r := Recover(s, runs, integrate, elapsed);
    var again := r.store.(now := r.store.now + wait);
    forall t: TaskId ensures !IsStranded(again, t) {
      assert IsLeased(again, t) == IsLeased(r.store, t);
      assert !IsStranded(r.store, t);
    }
    NothingToRecover(again, r.runs, integrate', elapsed');
  }

  // ----- Recovery itself

  class ControlPlaneRecovery {
    const plane: ControlPlane
    const integrate: Integrate
    var runs: seq<Execution>
    /** Every changeset handed to the integration service, in order. */
    ghost var applied: seq<ChangeSetId>

    constructor (plane: ControlPlane, integrate: Integrate, runs: seq<Execution>)
      ensures this.plane == plane && this.integrate == integrate && this.runs == runs && applied == []
    {
      this.plane, this.integrate, this.runs, applied := plane, integrate, runs, [];
    }

    /** Settles the queue row of a task whose changeset was just promoted; whether that went through. */
    method SettleRow(t: TaskId) returns (ok: bool)
      requires plane.quiet
      modifies plane
      ensures plane.store == ResumeRow(old(plane.store), t) && ok == GoesThrough(old(plane.store), t)
    {
      hide HandedBack, Queue;
      var s := plane.store;
      if t >= |s.rows| || !s.rows[t].kind.Work? {
        return true;
      }
      if s.rows[t].status.Claimed? {
        ok := plane.Ask(OpComplete(t, true));
        return;
      }
      if s.rows[t].status.Submitted? {
        var alsoClaimed := Queue(s, s.rows[t].repository, s.rows[t].project);
        var _ := plane.Ask(OpClaimQueue(s.rows[t].repository, s.rows[t].project));
        ok := plane.Ask(OpComplete(t, true));
        if ok {
          HandBack(t, alsoClaimed);
        }
        return;
      }
      return true;
    }

    /** Hands back what the detour caught, the promoted task itself excepted. */
    method HandBack(t: TaskId, alsoClaimed: seq<TaskId>)
      requires plane.quiet && HasStatus(plane.store, t, Integrated)
      modifies plane
      ensures plane.store == HandedBack(old(plane.store), alsoClaimed)
    {
      ghost var start := plane.store;
      assert alsoClaimed[..0] == [];
      for k := 0 to |alsoClaimed|
        invariant plane.store == HandedBack(start, alsoClaimed[..k]) && HasStatus(plane.store, t, Integrated)
      {
        assert alsoClaimed[..k + 1][..k] == alsoClaimed[..k];
        if alsoClaimed[k] != t {
          var _ := plane.Ask(OpRetry(alsoClaimed[k]));
        }
      }
      assert alsoClaimed[..|alsoClaimed|] == alsoClaimed;
    }

    /** The tasks of one run, against the run as it was read before any of them. */
    method ResumeRun(r: nat) returns (resumed: seq<TaskId>)
      requires plane.quiet && r < |runs|
      modifies this, plane
      ensures var run := old(runs)[r];
              && runs == old(runs)[r := Resumed(run, |run.tasks|, integrate)]
              && plane.store == ResumeRows(old(plane.store), PromotedTasks(run, |run.tasks|, integrate))
              && resumed == ResumedIds(old(plane.store), PromotedTasks(run, |run.tasks|, integrate))
              && applied == old(applied) + Applied(run, |run.tasks|)
    {
      hide ResumeRow, GoesThrough, ResumeRows, ResumedIds, PromotedTasks, Applied, Resumed, ResumableChangeSet;
      ghost var start, asked, all := plane.store, applied, runs;
      var detail := runs[r];
      resumed := [];
      ResumedNothing(detail, integrate);
      ResumeNobody(plane.store);
      for i := 0 to |detail.tasks|
        invariant runs == all[r := Resumed(detail, i, integrate)]
        invariant plane.store == ResumeRows(start, PromotedTasks(detail, i, integrate))
        invariant resumed == ResumedIds(start, PromotedTasks(detail, i, integrate))
        invariant applied == asked + Applied(detail, i)
      {
        ResumedOne(detail, i, integrate);
        ghost var so := PromotedTasks(detail, i, integrate);
        RowsOne(start, so, detail.tasks[i].id);
        var chosen := Chosen(detail, i);
        if chosen.Some? {
          applied := applied + [chosen.value.id];
          var verdict := integrate(chosen.value.id);
          if !verdict.Threw? {
            runs := runs[r := runs[r].(decided := runs[r].decided + [chosen.value.id])];
          }
          if verdict.Promoted? {
            runs := runs[r := runs[r].(tasks := runs[r].tasks[i := runs[r].tasks[i].(progress := Succeeded)])];
            var ok := SettleRow(detail.tasks[i].id);
            if ok {
              resumed := resumed + [detail.tasks[i].id];
            }
          }
        }
      }
    }

    method ResumeStrandedResults() returns (resumed: seq<TaskId>)
      requires plane.quiet
      modifies this, plane
      ensures runs == AllResumed(old(runs), integrate)
      ensures plane.store == ResumeRows(old(plane.store), AllPromoted(old(runs), integrate))
      ensures resumed == ResumedIds(old(plane.store), AllPromoted(old(runs), integrate))
      ensures applied == old(applied) + AllApplied(old(runs))
    {
      hide ResumeRow, ResumeRows, ResumedIds, GoesThrough, Resumed, PromotedTasks, Applied, AllPromoted, AllApplied, AllResumed;
      ghost var start, asked, all := plane.store, applied, runs;
      resumed := [];
      ResumingBegins(start, all, integrate);
      for r := 0 to |runs|
        invariant |runs| == |all| && runs == AllResumed(all[..r], integrate) + all[r..]
        invariant plane.store == ResumeRows(start, AllPromoted(all[..r], integrate))
        invariant resumed == ResumedIds(start, AllPromoted(all[..r], integrate))
        invariant applied == asked + AllApplied(all[..r])
      {
        var run := runs[r];
        ResumingOne(start, all, r, integrate);
        if run.status.Running? {
          var ids := ResumeRun(r);
          resumed := resumed + ids;
        } else {
          IdleRunStands(run, |run.tasks|, integrate);
          ResumeNobody(plane.store);
        }
      }
      assert all[..|all|] == all && all[|all|..] == [];
    }

    /** Closes every run that is still running. */
    method FailStrandedRuns() returns (failed: seq<nat>)
      modifies this`runs
      ensures runs == AllClosed(old(runs)) && failed == FailedRuns(old(runs))
    {
      ghost var all := runs;
      failed := [];
      assert all[..0] == [];
      for r := 0 to |runs|
        invariant |runs| == |all|
        invariant forall q :: 0 <= q < |all| ==> runs[q] == if q < r then Closed(all[q]) else all[q]
        invariant failed == FailedRuns(all[..r])
      {
        assert all[..r + 1][..r] == all[..r];
        if runs[r].status.Running? {
          var closed, stranded := CloseTasks(runs[r]);
          if stranded == 0 && AllSucceeded(runs[r]) {
            runs := runs[r := closed.(status := RunCompleted)];
          } else {
            runs := runs[r := closed.(status := RunFailed)];
            failed := failed + [r];
          }
        }
      }
      assert all[..|all|] == all;
    }

    /** Fails the unfinished tasks of a run, and counts them. */
    method CloseTasks(run: Execution) returns (closed: Execution, stranded: nat)
      ensures closed.(status := run.status) == run.(tasks := closed.tasks) && closed.status == run.status
      ensures |closed.tasks| == |run.tasks|
      ensures forall i :: 0 <= i < |run.tasks| ==>
        closed.tasks[i] == if run.tasks[i].progress.Underway? then run.tasks[i].(progress := Errored) else run.tasks[i]
      ensures stranded == 0 <==> forall i :: 0 <= i < |run.tasks| ==> !run.tasks[i].progress.Underway?
    {
      closed, stranded := run, 0;
      for i := 0 to |run.tasks|
        invariant closed == run.(tasks := closed.tasks) && |closed.tasks| == |run.tasks|
        invariant forall j :: 0 <= j < |run.tasks| ==>
          closed.tasks[j] == if j < i && run.tasks[j].progress.Underway? then run.tasks[j].(progress := Errored) else run.tasks[j]
        invariant stranded == 0 <==> forall j :: 0 <= j < i ==> !run.tasks[j].progress.Underway?
      {
        if run.tasks[i].progress.Underway? {
          stranded := stranded + 1;
          closed := closed.(tasks := closed.tasks[i := closed.tasks[i].(progress := Errored)]);
        }
      }
    }

    /** The whole pass, in the source's order; `elapsed` is how long resuming takes. */
    method RecoverCoordinationState(elapsed: nat) returns (report: RecoveryReport)
      requires plane.quiet
      modifies this, plane
      ensures |applied| >= |old(applied)| && applied[..|old(applied)|] == old(applied)
      ensures Recovered(plane.store, runs, applied[|old(applied)|..], report)
              == Recover(old(plane.store), old(runs), integrate, elapsed)
    {
      hide ResumeRows, ResumedIds, AllPromoted, AllApplied, AllResumed, AllClosed, FailedRuns, Stranded, Swept, ExpireFirst;
      var expired := LapsedLeases(plane.store, |plane.store.leases|);
      var _ := plane.Ask(OpExpire);
      var resumed := ResumeStrandedResults();
      var _ := plane.Ask(Tick(elapsed));
      var stranded, seen := plane.ReapStrandedWork(plane.store.now);
      var failed := FailStrandedRuns();
      report := RecoveryReport(failed, resumed, stranded, expired);
    }
  }

  lemma RowsOne(s: Store, so: seq<TaskId>, t: TaskId)
    ensures ResumeRows(s, so + [t]) == ResumeRow(ResumeRows(s, so), t)
    ensures ResumedIds(s, so + [t])
            == if GoesThrough(ResumeRows(s, so), t) then ResumedIds(s, so) + [t] else ResumedIds(s, so)
  {
    hide ResumeRow, GoesThrough;
    assert (so + [t])[..|so|] == so;
  }

  lemma ResumeNobody(s: Store)
    ensures ResumeRows(s, []) == s && ResumedIds(s, []) == []
  {
  }

  lemma ResumingBegins(s: Store, all: seq<Execution>, integrate: Integrate)
    ensures all[..0] == [] && all[0..] == all
    ensures AllResumed([], integrate) == [] && AllPromoted([], integrate) == [] && AllApplied([]) == []
    ensures ResumeRows(s, []) == s && ResumedIds(s, []) == []
  {
  }

  lemma ResumingOne(s: Store, all: seq<Execution>, r: nat, integrate: Integrate)
    requires r < |all|
    ensures var run, so := all[r], AllPromoted(all[..r], integrate);
            var more := PromotedTasks(run, |run.tasks|, integrate);
            && AllPromoted(all[..r + 1], integrate) == so + more
            && ResumeRows(s, so + more) == ResumeRows(ResumeRows(s, so), more)
            && ResumedIds(s, so + more) == ResumedIds(s, so) + ResumedIds(ResumeRows(s, so), more)
            && AllApplied(all[..r + 1]) == AllApplied(all[..r]) + Applied(run, |run.tasks|)
            && (AllResumed(all[..r], integrate) + all[r..])[r] == run
            && AllResumed(all[..r + 1], integrate) + all[r + 1..]
               == (AllResumed(all[..r], integrate) + all[r..])[r := Resumed(run, |run.tasks|, integrate)]
  {
    hide ResumeRow, GoesThrough, Resumed, ResumeRows, ResumedIds;
    assert all[..r + 1][..r] == all[..r];
    PromotionsJoin(s, AllPromoted(all[..r], integrate), PromotedTasks(all[r], |all[r].tasks|, integrate));
  }

  lemma ResumedNothing(run: Execution, integrate: Integrate)
    ensures Resumed(run, 0, integrate) == run && PromotedTasks(run, 0, integrate) == [] && Applied(run, 0) == []
  {
  }

  lemma ResumedOne(run: Execution, i: nat, integrate: Integrate)
    requires i < |run.tasks|
    ensures PromotedTasks(run, i + 1, integrate)
            == if Promotes(run, i, integrate) then PromotedTasks(run, i, integrate) + [run.tasks[i].id]
               else PromotedTasks(run, i, integrate)
    ensures Applied(run, i + 1)
            == if Chosen(run, i).Some? then Applied(run, i) + [Chosen(run, i).value.id] else Applied(run, i)
    ensures var so, c := Resumed(run, i, integrate), Chosen(run, i);
            Resumed(run, i + 1, integrate)
            == if c.None? || integrate(c.value.id).Threw? then so
               else if integrate(c.value.id).Promoted? then
                 so.(decided := so.decided + [c.value.id], tasks := so.tasks[i := so.tasks[i].(progress := Succeeded)])
               else so.(decided := so.decided + [c.value.id])
  {
    hide ResumableChangeSet;
  }

  lemma {:induction false} PromotionsJoin(s: Store, a: seq<TaskId>, b: seq<TaskId>)
    ensures ResumeRows(s, a + b) == ResumeRows(ResumeRows(s, a), b)
    ensures ResumedIds(s, a + b) == ResumedIds(s, a) + ResumedIds(ResumeRows(s, a), b)
    decreases |b|
  {
    hide ResumeRow, GoesThrough;
    if b == [] {
      assert a + b == a;
    } else {
      PromotionsJoin(s, a, b[..|b| - 1]);
      assert (a + b)[..|a + b| - 1] == a + b[..|b| - 1];
    }
  }
}
