/** The shared lease table and its one guarded write. */
module LeaseStore {
  import opened Optional
  import opened Plans

  type LeaseId = nat
  type Repository = string

  datatype Status = Approved | ApprovedWithConstraints | Sequenced | Blocked

  /** `withheld` are the declared resources a partial admission left out. */
  datatype Admission = Admission(status: Status, blockedBy: seq<TaskId>, withheld: set<File>)

  const GRANTED := Admission(Approved, [], {})

  datatype Submission = Submission(plan: Plan, admission: Admission)

  datatype Lease = Lease(
    task: TaskId,
    repository: Repository,
    branch: Option<string>,
    active: bool,
    submission: Option<Submission>)

  type Leases = map<LeaseId, Lease>

  predicate IsApproved(a: Admission) {
    a.status.Approved? || a.status.ApprovedWithConstraints?
  }

  predicate IsPartial(a: Admission) {
    IsApproved(a) && a.withheld != {}
  }

  /** An active lease whose plan was admitted. */
  predicate Executes(lease: Lease) {
    lease.active && lease.submission.Some? && IsApproved(lease.submission.value.admission)
  }

  /** A missing branch is the repository's own. */
  function BranchOf(lease: Lease): string {
    if lease.branch.Some? then lease.branch.value else ""
  }

  /** The other leases of the repository whose plans were admitted. */
  function ApprovedOthers(leases: Leases, repository: Repository, self: LeaseId): set<LeaseId> {
    set l | l in leases && l != self && leases[l].repository == repository && Executes(leases[l])
  }

  function PlanOn(leases: Leases, l: LeaseId): Plan
    requires l in leases && Executes(leases[l])
  {
    leases[l].submission.value.plan
  }

  datatype SaveOutcome = Saved | Stale | LeaseLost | AlreadyAdmitted(stored: Submission)

  /** Writes a submission under the compare-and-swap on the admitted set its writer observed. */
  function Save(leases: Leases, id: LeaseId, submission: Submission,
                observed: set<LeaseId>, replaceApproved: bool): (r: (SaveOutcome, Leases))
    ensures r.1.Keys == leases.Keys
    ensures forall l :: l in leases && l != id ==> r.1[l] == leases[l]
    ensures r.0.Saved? <==> && id in leases && leases[id].active && (replaceApproved || !Executes(leases[id]))
                            && ApprovedOthers(leases, leases[id].repository, id) == observed
    ensures r.0.Saved? ==> r.1[id] == leases[id].(submission := Some(submission))
    ensures !r.0.Saved? ==> r.1 == leases
    ensures r.0.LeaseLost? <==> id !in leases || !leases[id].active
    ensures r.0.AlreadyAdmitted? ==> Executes(leases[id]) && leases[id].submission == Some(r.0.stored)
  {
    if id !in leases || !leases[id].active then
      (LeaseLost, leases)
    else if !replaceApproved && Executes(leases[id]) then
      (AlreadyAdmitted(leases[id].submission.value), leases)
    else if ApprovedOthers(leases, leases[id].repository, id) != observed then
      (Stale, leases)
    else
      (Saved, leases[id := leases[id].(submission := Some(submission))])
  }

  /** Two leases are on one branch where they name the same, or one names none and the other the nameless. */
  lemma SameBranchIff(a: Lease, b: Lease)
    ensures BranchOf(a) == BranchOf(b)
            <==> || a.branch == b.branch
                 || (a.branch.None? && b.branch == Some("")) || (a.branch == Some("") && b.branch.None?)
  {
  }
}
