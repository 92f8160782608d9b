/** Leasing a repository's queued work: what can proceed first, then whatever else there is room for.

Which tasks wait on work already running comes in as a set; it orders the queue and excludes nothing.
*/
module Dispatch {
  import opened Optional
  import opened TaskStore
  import opened ControlPlane

  /** Queued, free to run and in scope: only room is wanting. */
  predicate WaitsForRoom(s: Store, t: TaskId, r: LeaseRequest) {
    IsClaimable(s, t) && IsWanted(s.rows[t], r)
  }

  lemma ExpiryClears(s: Store)
    ensures NoneLapsed(ExpireLeases(s)) && ExpireLeases(ExpireLeases(s)) == ExpireLeases(s)
  {
    hide ExpireFirst;
    forall l: LeaseId | l < |s.leases|
      ensures var e := ExpireLeases(s).leases[l]; !(e.status.Active? && e.expiresAt <= s.now)
    {
      ExpiryEnds(s, |s.leases|, l);
    }
    NothingToExpire(ExpireLeases(s), |s.leases|);
  }

  /** What one request to the store does. */
  lemma LeaseStep(s: Store, named: Option<TaskId>, r: LeaseRequest)
    requires r.ttl > 0
    ensures var swept, (ok, s') := ExpireLeases(s), LeaseNext(s, named, r);
            && NoneLapsed(s') && s'.now == s.now && ExpireLeases(s') == s'
            && (!ok ==> s' == swept && forall t: TaskId :: Agrees(named, t) ==> !IsEligible(s', t, r))
            && (ok ==> |s'.leases| == |s.leases| + 1
                       && var t := s'.leases[|s.leases|].task;
                          Agrees(named, t) && IsEligible(swept, t, r) && s' == Leased(swept, t, r))
  {
    ExpiryClears(s);
    hide ExpireFirst, IsHeldBack, IsWanted, ActiveIn;
    var s' := LeaseNext(s, named, r).1;
    NothingToExpire(s', |s'.leases|);
  }

  lemma RoomShrinks(s: Store, t: TaskId, r: LeaseRequest, repository: string)
    requires t < |s.rows|
    ensures ActiveIn(Leased(s, t, r).leases, repository)
            == ActiveIn(s.leases, repository) + if s.rows[t].repository == repository then 1 else 0
  {
    assert Leased(s, t, r).leases[..|s.leases|] == s.leases;
  }

  /** Leasing one task makes no other one eligible. */
  lemma EligibilityFades(s: Store, t: TaskId, r: LeaseRequest, u: TaskId)
    requires IsEligible(s, t, r)
    ensures WaitsForRoom(Leased(s, t, r), u, r) ==> WaitsForRoom(s, u, r) && u != t
    ensures IsEligible(Leased(s, t, r), u, r) ==> IsEligible(s, u, r)
  {
    hide ActiveIn;
    if u < |s.rows| {
      RoomShrinks(s, t, r, s.rows[u].repository);
    }
  }

  /** Nobody in the order was passed over: after a task that lacked only room, no later one was leased. */
  ghost predicate InOrder(s: Store, r: LeaseRequest, tried: seq<TaskId>, leased: seq<TaskId>) {
    forall i, j :: 0 <= i < j < |tried| && tried[i] !in leased && WaitsForRoom(s, tried[i], r) ==> tried[j] !in leased
  }

  ghost predicate Holding(s: Store, leased: seq<TaskId>) {
    && (forall k :: 0 <= k < |leased| ==> HasStatus(s, leased[k], Claimed) && IsLeased(s, leased[k]))
    && (forall j, k :: 0 <= j < k < |leased| ==> leased[j] != leased[k])
  }

  ghost predicate Refused(s: Store, r: LeaseRequest, tried: seq<TaskId>, leased: seq<TaskId>) {
    forall i :: 0 <= i < |tried| && tried[i] !in leased ==> !IsEligible(s, tried[i], r)
  }

  lemma HoldingOne(s: Store, t: TaskId, r: LeaseRequest, leased: seq<TaskId>)
    requires Holding(s, leased) && IsEligible(s, t, r)
    ensures Holding(Leased(s, t, r), leased + [t])
  {
    hide ActiveIn, IsHeldBack;
    var s' := Leased(s, t, r);
    assert Holds(s'.leases[|s.leases|], t);
    forall k | 0 <= k < |leased| ensures IsLeased(s', leased[k]) {
      var l :| 0 <= l < |s.leases| && Holds(s.leases[l], leased[k]);
      assert Holds(s'.leases[l], leased[k]);
    }
  }

  lemma OrderOne(s: Store, t: TaskId, r: LeaseRequest, tried: seq<TaskId>, leased: seq<TaskId>)
    requires r.repository.Some? && IsEligible(s, t, r)
    requires InOrder(s, r, tried, leased) && Refused(s, r, tried, leased)
    ensures var s' := Leased(s, t, r);
            InOrder(s', r, tried + [t], leased + [t]) && Refused(s', r, tried + [t], leased + [t])
  {
    hide ActiveIn, IsHeldBack;
    var s' := Leased(s, t, r);
    var all := tried + [t];
    forall i | 0 <= i < |all| && all[i] !in leased + [t]
      ensures !IsEligible(s', all[i], r) && !WaitsForRoom(s', all[i], r)
    {
      EligibilityFades(s, t, r, all[i]);
    }
    assert forall x :: x in leased ==> x in leased + [t];
  }

  lemma OrderRefused(s: Store, t: TaskId, r: LeaseRequest, tried: seq<TaskId>, leased: seq<TaskId>)
    requires InOrder(s, r, tried, leased) && Refused(s, r, tried, leased) && !IsEligible(s, t, r) && t !in leased
    ensures InOrder(s, r, tried + [t], leased) && Refused(s, r, tried + [t], leased)
  {
  }

  predicate IsPending(r: LeaseRequest, branch: Option<string>, row: Row) {
    row.kind.Work? && row.status.Submitted? && Agrees(r.repository, row.repository) && Agrees(r.project, row.project)
    && Agrees(branch, row.branch)
  }

  /** The queued tasks of a listing, oldest first. */
  function Pending(rows: seq<Row>, r: LeaseRequest, branch: Option<string>): (ids: seq<TaskId>)
    ensures forall t :: t in ids <==> 0 <= t < |rows| && IsPending(r, branch, rows[t])
    ensures forall i, j :: 0 <= i < j < |ids| ==> ids[i] < ids[j]
  {
    if rows == [] then []
    else
      var last: TaskId := |rows| - 1;
      var before := Pending(rows[..last], r, branch);
      assert forall i :: 0 <= i < |before| ==> before[i] in before;
      before + if IsPending(r, branch, rows[last]) then [last] else []
  }

  /** Queued work of the branch, repository and project asked for. */
  predicate WasAsked(row: Row, r: LeaseRequest, branch: string) {
    && row.kind.Work? && row.status == Submitted && row.branch == branch
    && (r.repository.Some? ==> row.repository == r.repository.value) && (r.project.Some? ==> row.project == r.project.value)
  }

  lemma PendingWereAsked(rows: seq<Row>, r: LeaseRequest, branch: Option<string>)
    ensures branch.Some? ==> forall t: TaskId :: t in Pending(rows, r, branch) <==> t < |rows| && WasAsked(rows[t], r, branch.value)
  {
  }

  function Those(ids: seq<TaskId>, within: set<TaskId>, wanted: bool): (kept: seq<TaskId>)
    ensures forall t :: t in kept <==> t in ids && (t in within) == wanted
    ensures (forall i, j :: 0 <= i < j < |ids| ==> ids[i] != ids[j])
            ==> forall i, j :: 0 <= i < j < |kept| ==> kept[i] != kept[j]
    ensures (forall i, j :: 0 <= i < j < |ids| ==> ids[i] < ids[j])
            ==> forall i, j :: 0 <= i < j < |kept| ==> kept[i] < kept[j]
  {
    if ids == [] then []
    else
      var last := ids[|ids| - 1];
      var before := Those(ids[..|ids| - 1], within, wanted);
      assert forall i :: 0 <= i < |before| ==> before[i] in before;
      before + if (last in within) == wanted then [last] else []
  }

  /** Ready work, oldest first, and then the work that is known to wait. */
  function Ordered(pending: seq<TaskId>, waiting: set<TaskId>): seq<TaskId> {
    Those(pending, waiting, false) + Those(pending, waiting, true)
  }

  ghost predicate Distinct(ids: seq<TaskId>) {
    forall i, j :: 0 <= i < j < |ids| ==> ids[i] != ids[j]
  }

  lemma OrderedIsEveryone(pending: seq<TaskId>, waiting: set<TaskId>)
    requires Distinct(pending)
    ensures Distinct(Ordered(pending, waiting))
    ensures forall t :: t in Ordered(pending, waiting) <==> t in pending
  {
    var ready, late := Those(pending, waiting, false), Those(pending, waiting, true);
    forall i, j | 0 <= i < |ready| && 0 <= j < |late| ensures ready[i] != late[j] {
      assert ready[i] in ready && late[j] in late;
    }
  }

  /** The order is that of submission, but for the work that is known to wait, which comes last. */
  lemma OldestFirst(pending: seq<TaskId>, waiting: set<TaskId>, i: nat, j: nat)
    requires forall a, b :: 0 <= a < b < |pending| ==> pending[a] < pending[b]
    requires i < j < |Ordered(pending, waiting)|
    ensures var all := Ordered(pending, waiting);
            if all[i] in waiting <==> all[j] in waiting then all[i] < all[j] else all[j] in waiting
  {
    var ready, late := Those(pending, waiting, false), Those(pending, waiting, true);
    assert i < |ready| ==> ready[i] in ready;
    assert j < |ready| ==> ready[j] in ready;
    assert i >= |ready| ==> late[i - |ready|] in late;
    assert j >= |ready| ==> late[j - |ready|] in late;
  }

  /** What the order is for: while a ready task lacks only room, no task known to wait was given any. */
  lemma ReadyComesFirst(s: Store, r: LeaseRequest, pending: seq<TaskId>, waiting: set<TaskId>, leased: seq<TaskId>,
                        ready: TaskId, late: TaskId)
    requires InOrder(s, r, Ordered(pending, waiting), leased)
    requires ready in pending && ready !in waiting && ready !in leased && WaitsForRoom(s, ready, r)
    requires late in pending && late in waiting
    ensures late !in leased
  {
    var first, second := Those(pending, waiting, false), Those(pending, waiting, true);
    var i :| 0 <= i < |first| && first[i] == ready;
    var j :| 0 <= j < |second| && second[j] == late;
    assert Ordered(pending, waiting)[i] == ready && Ordered(pending, waiting)[|first| + j] == late;
  }

  ghost predicate Progress(s: Store, r: LeaseRequest, tried: seq<TaskId>, leased: seq<TaskId>) {
    Holding(s, leased) && InOrder(s, r, tried, leased) && Refused(s, r, tried, leased)
  }

  lemma TryOne(s: Store, t: TaskId, r: LeaseRequest, tried: seq<TaskId>, leased: seq<TaskId>)
    requires r.repository.Some? && r.ttl > 0 && ExpireLeases(s) == s
    requires Progress(s, r, tried, leased) && t !in leased
    ensures var (ok, s') := LeaseNext(s, Some(t), r);
            Progress(s', r, tried + [t], if ok then leased + [t] else leased)
  {
    hide ExpireFirst, IsEligible, Leased, Holding, InOrder, Refused;
    LeaseStep(s, Some(t), r);
    var (ok, s') := LeaseNext(s, Some(t), r);
    if ok {
      HoldingOne(s, t, r, leased);
      OrderOne(s, t, r, tried, leased);
    } else {
      OrderRefused(s, t, r, tried, leased);
    }
  }

  /** Leasing a task that is not in the order, or is, keeps the order. */
  lemma DrainOne(s: Store, t: TaskId, r: LeaseRequest, tried: seq<TaskId>, leased: seq<TaskId>)
    requires r.repository.Some? && IsEligible(s, t, r) && Progress(s, r, tried, leased)
    ensures Progress(Leased(s, t, r), r, tried, leased + [t])
  {
    hide ActiveIn, IsHeldBack;
    HoldingOne(s, t, r, leased);
    var s' := Leased(s, t, r);
    forall i | 0 <= i < |tried| && tried[i] !in leased + [t]
      ensures !IsEligible(s', tried[i], r) && !WaitsForRoom(s', tried[i], r)
    {
      EligibilityFades(s, t, r, tried[i]);
    }
    assert forall x :: x in leased ==> x in leased + [t];
  }

  /** The task is claimed, and this lease of the worker's is the one on it. */
  predicate IsTaken(s: Store, t: TaskId, l: LeaseId, worker: string) {
    HasStatus(s, t, Claimed) && l < |s.leases| && Holds(s.leases[l], t) && s.leases[l].worker == worker
  }

  /** It was so at some point between the two, and the lease is that task's for good. */
  ghost predicate Took(a: Store, b: Store, t: TaskId, l: LeaseId, worker: string) {
    && l < |b.leases| && b.leases[l].task == t
    && exists mid :: IsBetween(a, mid, b) && IsTaken(mid, t, l, worker)
  }

  ghost predicate AllTook(a: Store, b: Store, leased: seq<TaskId>, leases: seq<LeaseId>, worker: string) {
    && |leased| == |leases| && Reaches(a, b)
    && (forall k :: 0 <= k < |leased| ==> Took(a, b, leased[k], leases[k], worker))
    && (forall j, k :: 0 <= j < k < |leases| ==> leases[j] < leases[k])
  }

  lemma TookStays(a: Store, b: Store, c: Store, t: TaskId, l: LeaseId, worker: string)
    requires Took(a, b, t, l, worker) && Reaches(b, c)
    ensures Took(a, c, t, l, worker)
  {
    hide Reaches;
    var mid :| IsBetween(a, mid, b) && IsTaken(mid, t, l, worker);
    ReachesThrough(mid, b, c);
    assert IsBetween(a, mid, c);
    SettledSince(b, c, l);
  }

  lemma AllTookStays(a: Store, b: Store, c: Store, leased: seq<TaskId>, leases: seq<LeaseId>, worker: string)
    requires AllTook(a, b, leased, leases, worker) && Reaches(b, c)
    ensures AllTook(a, c, leased, leases, worker)
  {
    hide Reaches, Took;
    ReachesThrough(a, b, c);
    forall k | 0 <= k < |leased| ensures Took(a, c, leased[k], leases[k], worker) {
      TookStays(a, b, c, leased[k], leases[k], worker);
    }
  }

  /** One more request that was granted. */
  lemma TookOne(a: Store, b: Store, c: Store, leased: seq<TaskId>, leases: seq<LeaseId>, named: Option<TaskId>,
                r: LeaseRequest)
    requires AllTook(a, b, leased, leases, r.worker) && r.ttl > 0 && LeaseNext(b, named, r).0
    requires Reaches(b, LeaseNext(b, named, r).1) && Reaches(LeaseNext(b, named, r).1, c)
    ensures |LeaseNext(b, named, r).1.leases| == |b.leases| + 1
    ensures AllTook(a, c, leased + [LeaseNext(b, named, r).1.leases[|b.leases|].task], leases + [|b.leases|], r.worker)
  {
    hide Reaches, LeaseNext, ExpireFirst;
    LeaseStep(b, named, r);
    var next := LeaseNext(b, named, r).1;
    var t := next.leases[|b.leases|].task;
    ReachesThrough(a, b, next);
    ReachesThrough(b, next, c);
    AllTookStays(a, b, c, leased, leases, r.worker);
    assert IsTaken(next, t, |b.leases|, r.worker);
    assert IsBetween(a, next, c);
    SettledSince(next, c, |b.leases|);
    assert Took(a, c, t, |b.leases|, r.worker);
    forall k | 0 <= k < |leases| ensures leases[k] < |b.leases| {
      assert Took(a, b, leased[k], leases[k], r.worker);
    }
  }

  /** Whoever else uses the store meanwhile, each task leased was claimed under a lease of its own when it
      was taken. Undisturbed, it still is; in the order tried nobody who lacked only room was passed over
      for somebody later, so work known to wait is leased only once no ready task lacks room; and without
      a branch nothing is left that could still be leased.

      Others can make room for the unnamed drain without end, so it is followed for any number of
      requests: `done` says whether it came to an end in them, which undisturbed it does. */
  method LeaseQueuedWork(plane: ControlPlane, r: LeaseRequest, branch: Option<string>, legacy: bool, localOnly: bool,
                         waiting: set<TaskId>, requests: nat)
    returns (leased: seq<TaskId>, leases: seq<LeaseId>, done: bool)
    requires r.repository.Some? && r.project.Some? && r.ttl > 0
    modifies plane
    ensures localOnly ==> leased == [] && plane.store == old(plane.store)
    ensures AllTook(old(plane.store), plane.store, leased, leases, r.worker)
    ensures branch.Some? ==> done && forall t :: t in leased ==> t < |old(plane.store).rows| && WasAsked(old(plane.store).rows[t], r, branch.value)
    ensures !done ==> |leased| >= requests
    ensures plane.quiet && requests > r.parallelism ==> done
    ensures plane.quiet && !localOnly ==>
      var named := if legacy && branch.None? then [] else Pending(old(plane.store).rows, r, branch);
      && Progress(ExpireLeases(plane.store), r, Ordered(named, waiting), leased)
      && (branch.None? && done ==> forall t: TaskId :: !IsEligible(plane.store, t, r))
  {
    hide ExpireLeases, IsEligible, Progress, Pending, Ordered, Reaches, Took;
    ReachesSelf(plane.store);
    if localOnly {
      return [], [], true;
    }
    var named := if legacy && branch.None? then [] else Pending(plane.store.rows, r, branch);
    var ordered := Ordered(named, waiting);
    PendingWereAsked(plane.store.rows, r, branch);
    assert Distinct(named);
    OrderedIsEveryone(named, waiting);
    leased, leases := TryInOrder(plane, r, ordered);
    done := true;
    if branch.None? {
      leased, leases, done := Drain(plane, r, ordered, old(plane.store), leased, leases, requests);
    }
  }

  /** The named pass: each candidate is tried, whatever became of the one before. */
  method TryInOrder(plane: ControlPlane, r: LeaseRequest, ordered: seq<TaskId>)
    returns (leased: seq<TaskId>, leases: seq<LeaseId>)
    requires r.repository.Some? && r.ttl > 0 && Distinct(ordered)
    modifies plane
    ensures AllTook(old(plane.store), plane.store, leased, leases, r.worker)
    ensures forall t :: t in leased ==> t in ordered
    ensures plane.quiet ==> Progress(ExpireLeases(plane.store), r, ordered, leased)
  {
    hide ExpireLeases, IsEligible, Progress, LeaseNext, Reaches, Took;
    ghost var start := plane.store;
    leased, leases := [], [];
    NothingTriedYet(plane.store, r, leased);
    ReachesSelf(start);
    assert ordered[..0] == [];
    for k := 0 to |ordered|
      invariant AllTook(start, plane.store, leased, leases, r.worker)
      invariant plane.quiet ==> Progress(ExpireLeases(plane.store), r, ordered[..k], leased)
      invariant forall t :: t in leased ==> t in ordered[..k]
    {
      var t := ordered[k];
      ghost var s := plane.store;
      assert t !in ordered[..k];
      ExpiryClears(s);
      LeaseStep(s, Some(t), r);
      SweepFirst(s, Some(t), r);
      if plane.quiet {
        TryOne(ExpireLeases(s), t, r, ordered[..k], leased);
      }
      assert ordered[..k + 1] == ordered[..k] + [t];
      var got := plane.AskLease(Some(t), r);
      if got.Some? {
        TookOne(start, s, plane.store, leased, leases, Some(t), r);
        leased, leases := leased + [got.value.0], leases + [got.value.1];
      } else {
        AllTookStays(start, s, plane.store, leased, leases, r.worker);
      }
    }
    assert ordered[..|ordered|] == ordered;
  }

  /** The unnamed drain: the oldest that can be had, until there is none. */
  method Drain(plane: ControlPlane, r: LeaseRequest, ghost tried: seq<TaskId>, ghost start: Store, so: seq<TaskId>,
               on: seq<LeaseId>, requests: nat)
    returns (leased: seq<TaskId>, leases: seq<LeaseId>, done: bool)
    requires r.repository.Some? && r.ttl > 0 && AllTook(start, plane.store, so, on, r.worker)
    requires plane.quiet ==> Progress(ExpireLeases(plane.store), r, tried, so)
    modifies plane
    ensures AllTook(start, plane.store, leased, leases, r.worker)
    ensures !done ==> |leased| >= requests
    ensures plane.quiet ==> Progress(ExpireLeases(plane.store), r, tried, leased)
    ensures plane.quiet && requests > r.parallelism ==> done
    ensures plane.quiet && done ==> forall t: TaskId :: !IsEligible(plane.store, t, r)
  {
    hide ExpireLeases, IsEligible, Leased, Progress, LeaseNext, Reaches, Took, ActiveIn;
    leased, leases, done := so, on, false;
    var n := 0;
    while n < requests && !done
      invariant n <= requests && (!done ==> |leased| >= n)
      invariant AllTook(start, plane.store, leased, leases, r.worker)
      invariant plane.quiet ==> Progress(ExpireLeases(plane.store), r, tried, leased)
      invariant plane.quiet && !done ==> n <= ActiveIn(ExpireLeases(plane.store).leases, r.repository.value)
      invariant plane.quiet && !done && n > 0 ==> n <= r.parallelism
      invariant plane.quiet && done ==> forall t: TaskId :: !IsEligible(plane.store, t, r)
      decreases requests - n, !done
    {
      ghost var s := plane.store;
      LeaseStep(s, None, r);
      ExpiryClears(s);
      var got := plane.AskLease(None, r);
      if got.Some? {
        TookOne(start, s, plane.store, leased, leases, None, r);
        if plane.quiet {
          DrainOne(ExpireLeases(s), got.value.0, r, tried, leased);
          RoomTaken(ExpireLeases(s), got.value.0, r);
        }
        leased, leases := leased + [got.value.0], leases + [got.value.1];
        n := n + 1;
      } else {
        AllTookStays(start, s, plane.store, leased, leases, r.worker);
        done := true;
      }
    }
  }

  lemma RoomTaken(s: Store, t: TaskId, r: LeaseRequest)
    requires r.repository.Some? && IsEligible(s, t, r)
    ensures ActiveIn(s.leases, r.repository.value) < r.parallelism
    ensures ActiveIn(Leased(s, t, r).leases, r.repository.value) == ActiveIn(s.leases, r.repository.value) + 1
  {
    RoomShrinks(s, t, r, r.repository.value);
  }

  lemma SweepFirst(s: Store, named: Option<TaskId>, r: LeaseRequest)
    ensures LeaseNext(ExpireLeases(s), named, r) == LeaseNext(s, named, r)
  {
    hide ExpireFirst;
    ExpiryClears(s);
  }

  lemma NothingTriedYet(s: Store, r: LeaseRequest, leased: seq<TaskId>)
    requires leased == []
    ensures Progress(ExpireLeases(s), r, [], leased) && ExpireLeases(ExpireLeases(s)) == ExpireLeases(s)
  {
    ExpiryClears(s);
  }
}
