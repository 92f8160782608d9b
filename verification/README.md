# A verified model of the coordinator's control plane

Kumi's control plane lets several coding agents work in one repository. This
project models its decision-making core in Dafny and proves what it keeps over
every interleaving, every run or every input. Nothing here runs the program:
what is proved is proved of the model, which takes the branches, constants and
error paths of the files cited below.

`dafny verify dfyconfig.toml` checks all of it.

## What is modelled

**Plan admission over a shared lease table.** `Plans` has plans, the files and
symbols they reach, repository-wide claims and the two ways such a claim
narrows. `LeaseStore` has the lease table and its guarded write.
`AdmissionProtocol` is the optimistic protocol itself: any number of
authorities read, decide and commit in any order, with repository-wide claims,
rewrites of any lease from however stale a plan, arrivals and expiries between;
its swap compares lease ids, not plans. `PlanDecision` is which of the decision
procedure's answers is given: whole, in part, or refused behind a claim.
`PlanAuthority` is one authority, its class and the function each method is
proved against; `HolderNarrowing` is what happens to a repository-wide claim
when somebody arrives; `AdmissionTrail` is the durable trail and its counting;
`AdmissionRuns` has the properties of whole sequences of calls and the bridges
from one authority's calls, freezes and narrowings to the protocol;
`ProtocolHistory` and `AdmissionHistory` make a run of the protocol of any
history of such calls on one table; `AdmissionRace` has the runs that show why
exclusivity needs its hypothesis.

**Task lifecycle and crash recovery.** `TaskStore` is the queue and its leases
as the store's operations change them, and what every interleaving of them
keeps. `ControlPlane` has the sweeps as methods of a class whose every store
call is followed by an arbitrary run of everybody else's operations, so that
what a sweep promises it promises under interference. `Dispatch` leases queued
work in order, under interference too. `Recovery` is the pass at startup.

**Codecs and drivers.** `LineStream` reassembles lines from chunks,
`ContextPressure` bills and watches a run off such lines, `PromptSplit` cuts a
prompt into argument words, `Toml` and `McpOverrides` print configuration and
read it back, `RequestDriver` is the one-request-in-flight process driver, and
`RemoteHolders` is the registry of asks to holders on other machines.
`Optional` and `WhiteSpace` are shared helpers.

Clocks, worktrees, parsers and the integration service come in as values or
parameters. Of the decision procedure, the scoring of conflicts and the choice of
what to withhold are such values, known only by `Lawful`: an approved answer is
compatible with every plan of another task it was shown, and a part is a
narrowing that withholds something. When a claim refuses a plan and when it is
split is the code's own rule (services/coordinator/src/plan-admission.ts:677-722).

## What turned out not to hold as described

Each of these is proved, with the condition under which the described behaviour
does hold.

1. *Exclusivity.* The swap covers the other admitted leases' ids, not their
   plans, and a claim's own rewrites are not in anybody's set. Two runs show what
   that lets through. The arrival's narrowing and the holder's own poll both commit
   around the arrival's grant, and the later one takes back a file just granted
   (`AdmissionRace.RacingNarrowingsBreakExclusivity`). And an arrival that read the
   claim before another one narrowed it writes its own freeze of the old claim, with
   ids read afresh, over the narrowed plan
   (`AdmissionRace.LateNarrowingBreaksExclusivity`; up to that write the run meets
   every hypothesis). A rewrite keeps the table exclusive exactly when its plan is
   compatible with the admitted plans it contends with
   (`AdmissionProtocol.RewriteKeepsExclusiveIff`); behind a pending decision, a
   rewrite or a live widening is harmless exactly when the two plans are compatible
   (`RewriteBehindADecision`). Exclusivity over every
   interleaving is proved where what is written narrows what it replaces, which a
   writer can see on the row it writes; a widening may also replace a plan nobody is
   deciding on. A rewrite whose claim is still the stored one meets that exactly when
   it names nothing that was handed back (`StoredClaimIsNarrowedIff`). The same is
   proved of the calls themselves: any history of claims, freezes, narrowings and
   admissions on one table, each on readings as old as it likes, is such a run
   (`AdmissionHistory.CallsKeepPlansExclusive`). It is
   exclusivity between different tasks: two leases of one task (finding 10) are never
   decided against each other.
2. *One split per task.* The decision procedure splits a plan whose request does
   not allow it when another holder's claim occupies one of its files
   (services/coordinator/src/plan-admission.ts:690-715): exactly when there is such
   a claim, none covers the repository, and a part can be granted
   (`AdmissionRuns.SplitsWithoutLeaveIff`). There is a task split twice so
   (`SplitAgainAroundAClaim`). While no claim stands in its way a task is split at
   most once, a follow-up never, and splitting goes one generation deep
   (`SplitAtMostOnce`, `SplittingHasDepthOne`).
3. *A failed observation changes no lease.* True of the first reading only. When
   the second reading of the holder's worktree fails, the narrowing goes ahead on
   the first one: the table changes exactly when the freeze had no answer without
   reading, the admitted set is still the one read first, and the lease does not hold
   that very plan already (`HolderNarrowing.FailedReadingChangesIff`; a concrete one
   in `FailedReadingStillNarrows`).
4. *The answer is what the lease holds.* Not where a refused request is let
   through for having waited, which the trail then says, and not where a request
   that does not revise is made on a lease that already holds an admitted plan: it
   is answered with the plan just granted while the lease keeps the old one, and
   they agree exactly when the two plans are equal (`PlanAuthority.AdmittedIsHonest`,
   `ResubmissionIsAnsweredWithAnotherPlan`).
5. *Escalation after two refusals.* The trail leaves out an answer that repeats
   the last one, so what is counted is changes of answer, not attempts; the same
   refusal repeated any number of times counts once
   (`AdmissionTrail.EscalatesOnlyOnChange`, `IdenticalRefusalsNeverEscalate`).
6. *A converted plan shares no file with anybody.* It does not exactly when the
   holder's own estimate does not (`HolderNarrowing.ConversionIsSafe`). On one
   reading of an exclusive table nobody shares a claim's files
   (`AdmissionRace.OccupiedMeansRewritten`); between the reading of the holder's
   lease and that of its neighbours somebody can come to, and then the conversion is
   abandoned for a freeze that takes the file (`ConversionIsAbandoned`). A conversion
   that is written can share a file (`HolderNarrowing.ConversionSharesAFile`). It is
   meant to be arbitrated whole or not at all; but a claim in its way is answered with
   a part, and the whole is written all the same, so what is written is compatible
   with the plans it was heard against exactly when none of their claims holds a file
   of it (`ConversionIsArbitratedIff`, `ConversionOverlapsAClaim`).
7. *Joining the words gives back the prompt.* Exactly when every space-free
   stretch fits in a word with room for the space after it; a stretch of exactly
   the maximum is fine only at the end (`PromptSplit.SplitPromptArguments`).
8. *Releasing a remote holder leaves nothing behind.* Exactly when the task has a
   disposer or had nothing to leave: a heartbeat of a task that was never
   registered leaves its reading, and the closure of a registration that has been
   replaced drops the new holder's disposer
   (`RemoteHolders.ReleaseLeavesNothingIff`, `StaleReleaseLeavesAnAsk`).
9. *A requeue refuses a row that has moved on.* Not one that has moved on to
   `failed` (`TaskStore.RetryRefusesMovedOn`).
10. *A pause releases the lease and nothing else.* Resumed and leased again before
    the release arrives, the task is put back in the queue while it runs
    (`TaskStore.LateReleaseRequeuesARunningTask`); one runner for each task
    survives a resume or a retry exactly when no lease on it is active
    (`TaskStore.OneRunnerKeptIff`). With two on it, a cancel or a pause releases only
    the newest (`ControlPlane.ActiveLeaseIsLeftIff`).
11. *A promoted task is never run again.* Not if it waits behind another task: it
    cannot be claimed back, stays queued, and the rest of its queue is left
    claimed until the sweep (`Recovery.PromotedRowIsIntegratedIff`). A predecessor
    that failed and was retried brings that about: the run completes and its task's
    row stays in the queue (`Recovery.PromotedBehindARetry`).
12. *A converted claim is never widened again.* True of the freeze, by whomever and
    however often (`HolderNarrowing.NoReWidening`). The write of an arrival that
    cannot ask the holder takes it that whatever it keeps was held already
    (apps/cli/src/lease-admission.ts:1794-1797) and looks at no stored plan: it
    narrows what is stored exactly when there is room in that for every file it names
    (`HolderNarrowing.ArrivalNarrowsStoredIff`), and a claim frozen to one file is
    rewritten to two (`ArrivalWidensANarrowedClaim`).
13. *An arrival is never granted a file its holder was seen writing.* It can be where
    somebody else has narrowed the claim already: the arrival is then decided against
    the stored plan, which need not have the file
    (`AdmissionRace.DirtyFileIsGivenAway`). A file found dirty at every reading is out
    of its reach exactly unless the stored plan leaves the file free, or the holder's
    own answer named it (`HolderNarrowing.ArrivalStaysOutOfDirtyFilesIff`). A file
    that only the arrival's first reading found is dropped when the freeze reads again
    (`FirstReadingIsDropped`).

## Model

| member | source | states |
|---|---|---|
| Plans.WholeFilesAreExclusive | packages/shared-types/src/index.ts:2458-2491 | a plan compatible with one that holds a file whole stays out of that file |
| Plans.FreezeOccupies | services/coordinator/src/blanket-claim.ts:114-178 | a freeze occupies exactly the caller's files and the changed ones, each whole |
| Plans.DeclaredOccupies | services/coordinator/src/blanket-claim.ts:221-275 | a conversion holds whole exactly the observed files its holder did not name, and the rest by the symbols it did |
| Plans.FreezeNarrowsIff | services/coordinator/src/blanket-claim.ts:98-178 | a freeze narrows a claim exactly when nothing it keeps had been handed back |
| Plans.DeclaredNarrowsIff | services/coordinator/src/blanket-claim.ts:221-275 | the same for a declared conversion, which may also name files of its own |
| Plans.NarrowsIff | packages/shared-types/src/index.ts:2458-2491 | a plan that is not repository-wide narrows another exactly when there is room in that one for every file it names |
| LeaseStore.Save | services/persistence/src/sqlite-store.ts:1357-1402 | the write goes through exactly when the lease is active, nothing admitted stands unless it may be replaced, and the admitted set is the observed one; it is lost exactly when the lease is; otherwise nothing changes, and no other lease ever does |
| LeaseStore.SameBranchIff | apps/cli/src/lease-admission.ts:1958-1980 | a lease without a branch is on the nameless one, and otherwise branches are the same by name |
| AdmissionProtocol.StepKeepsInv | apps/cli/src/lease-admission.ts:453-502 | any step, sound in the stated sense, keeps admitted plans of different tasks exclusive, claims alone, and every pending decision's view covering the table; a rewrite may start from any plan |
| AdmissionProtocol.AdmittedPlansAreExclusive | apps/cli/src/lease-admission.ts:1440-1467 | over every interleaving of sound steps, any two admitted plans of different tasks on one branch are compatible and a repository-wide one is its repository's only one |
| AdmissionProtocol.RewriteKeepsExclusiveIff | apps/cli/src/lease-admission.ts:1704-1816 | a saved rewrite lands over whatever is stored and keeps the table exclusive exactly when its plan is compatible with the admitted plans it contends with |
| AdmissionProtocol.StoredClaimIsNarrowedIff | apps/cli/src/lease-admission.ts:1704-1816 | a rewrite of the claim still stored narrows it, and so keeps the invariant, exactly when it names nothing that was handed back |
| AdmissionProtocol.AdmittedStaysAdmitted | apps/cli/src/lease-admission.ts:479-502 | no step at all replaces an admitted contract by one that is not, while its lease is active |
| AdmissionProtocol.ArrivalsAreNoticed | services/persistence/src/sqlite-store.ts:1357-1402 | an admission behind a pending write's back makes that write leave the table alone |
| AdmissionProtocol.SaveAfterRewrite | services/persistence/src/store.ts:640-660 | rewriting an observed plan does not make a later save stale |
| AdmissionProtocol.TwoWrites | apps/cli/src/lease-admission.ts:985-1037 | writing two admitted plans, the first of them harmless, leaves an exclusive table exactly when they are compatible with each other |
| AdmissionProtocol.RewriteBehindADecision | apps/cli/src/lease-admission.ts:1600-1849 | a rewrite or a revision that is harmless alone and then the decision that had read the old plan both commit, and are exclusive exactly when the two plans are compatible |
| ProtocolHistory.HistoryIsReached | apps/cli/src/lease-admission.ts:453-502 | every moment of a history of sound writes is a state a sound run of the protocol reaches, the readings still open then being its pending operations |
| AdmissionHistory.CallsKeepPlansExclusive | apps/cli/src/lease-admission.ts:292-1849 | any history of claims, freezes, narrowings on arrival and admissions on one table, on however old readings, whose rewrites narrow what they replace, is a sound run of the protocol and keeps admitted plans of different tasks exclusive and claims alone |
| AdmissionRace.PollRaceEnds | apps/cli/src/lease-admission.ts:1600-1849 | the eleven-step race of two narrowings is a run of the protocol, exclusive exactly when the poll's plan is compatible with the arrival's |
| AdmissionRace.RacingNarrowingsBreakExclusivity | apps/cli/src/lease-admission.ts:985-1037 | a concrete such run, from the narrowings the code really makes, ends with two incompatible admitted plans |
| AdmissionRace.LateNarrowingBreaksExclusivity | apps/cli/src/lease-admission.ts:1600-1849 | twelve sound steps from the empty table reach a state where the code's own narrowing, made from a claim read before it was narrowed, is saved and takes back a granted file |
| AdmissionRace.OccupiedMeansRewritten | apps/cli/src/lease-admission.ts:1058-1158 | on one reading of a table whose claims are alone, a file of a neighbour means the claim has been rewritten |
| AdmissionRace.ConversionIsAbandoned | apps/cli/src/lease-admission.ts:888-1037 | two reachable readings between which the conversion is abandoned, and the freeze that follows takes a granted file |
| AdmissionRace.DirtyFileIsGivenAway | apps/cli/src/lease-admission.ts:1600-1764 | a reachable table on which an arrival that saw a file dirty is told to decide against a plan that leaves the file free |
| AdmissionTrail.BlockedSuffixIsLongest | apps/cli/src/admission-history.ts:46-68 | the counted suffix is all refusals, cannot be made longer, and is part of the total |
| AdmissionTrail.BlockedAdmissionHistory | apps/cli/src/admission-history.ts:46-68 | one pass from the newest entry back finds the longest all-refused suffix and the total, and the first is at most the second |
| AdmissionTrail.TotalCountsRefusals | apps/cli/src/admission-history.ts:46-68 | the total counts exactly the entries that say blocked |
| AdmissionTrail.ToldToSequenceIff | apps/cli/src/lease-admission.ts:441-451 | the procedure is told of enough refusals exactly after two in a row or four in all |
| AdmissionTrail.RecordedHasNoRepeats | apps/cli/src/lease-admission.ts:1409-1430 | a trail written only through `record` never has two equal answers side by side, and ends with the last answer |
| AdmissionTrail.RecordOnlyAdds | apps/cli/src/lease-admission.ts:1409-1430 | recording never lowers the lifetime count and never forgets a split |
| AdmissionTrail.ConsecutiveCountsRuns | apps/cli/src/lease-admission.ts:441-451 | what is counted is the number of runs of equal answers since the last one that was not a refusal |
| AdmissionTrail.EscalatesOnlyOnChange | apps/cli/src/admission-history.ts:46-68 | the unbroken run reaches the escalation point exactly when two successive refusals in it differ |
| AdmissionTrail.IdenticalRefusalsNeverEscalate | apps/cli/src/lease-admission.ts:76-90 | the same refusal, repeated any number of times, counts once |
| HolderNarrowing.ReleasedTo | apps/cli/src/lease-admission.ts:1670-1678 | what an arrival is given off an estimate was estimated, wanted and is not being written; it is nothing where nothing is, and otherwise all of that |
| HolderNarrowing.ConversionIsSafe | apps/cli/src/lease-admission.ts:1058-1158 | a conversion covers every observed file, whole unless the answer named it, is abandoned where one is taken, and meets no other plan exactly when the holder's estimate does not |
| HolderNarrowing.OccupiedElsewhereIff | apps/cli/src/lease-admission.ts:1066-1072 | a file is occupied by a plan that names it or by a claim that holds it |
| HolderNarrowing.NoReWidening | apps/cli/src/lease-admission.ts:802-888 | however often, by whomever and from whatever stale plans a claim is frozen, each freeze reading the lease as it stands, it is rewritten at most once: from the first write on the whole table stands |
| HolderNarrowing.FreezeWrites | apps/cli/src/lease-admission.ts:888-1037 | a freeze that writes, its lease and its neighbours read apart, changes one lease, to an admitted plan that is not repository-wide, covering every observed file and nothing but the caller's files not handed back, the answer and the observation |
| HolderNarrowing.FreezeAnswersIff | apps/cli/src/lease-admission.ts:802-1037 | when one turn of a freeze gives each of its answers, whom it has then asked and what it leaves: a due claim whose worktree is read and whose write goes through is rewritten exactly when there is ground to keep or an approved answer |
| HolderNarrowing.PlainFootprint | apps/cli/src/lease-admission.ts:960-1005 | what such a freeze keeps: the plan's own files and the changed ones, or where nothing was written the estimate, none of it handed back |
| HolderNarrowing.HandedBackStaysFree | apps/cli/src/lease-admission.ts:853-886 | ground the stored claim says was handed back is not taken again, unless the holder writes in it or names it |
| HolderNarrowing.NothingWrittenIsHeldToTheEstimate | apps/cli/src/lease-admission.ts:960-1005 | a concrete holder that has written nothing and is frozen to its estimate |
| HolderNarrowing.FreezingTwice | apps/cli/src/lease-admission.ts:802-1037 | a second freeze with any stale claim, answer or reading returns the first one's plan and writes nothing |
| HolderNarrowing.ConversionIsAllOrNothing | apps/cli/src/lease-admission.ts:1058-1158 | a conversion that is approved and saved is written whole, or the outcome is that of a holder that could not be asked |
| HolderNarrowing.ConversionIsArbitratedIff | apps/cli/src/lease-admission.ts:1101-1135 | a written conversion is compatible with every admitted plan of another task it read exactly when none of their claims holds a file of it |
| HolderNarrowing.ConversionSharesAFile | apps/cli/src/lease-admission.ts:1058-1158 | a concrete conversion that is written and shares a file with an admitted plan, on another symbol |
| HolderNarrowing.ConversionOverlapsAClaim | apps/cli/src/lease-admission.ts:1058-1158 | a concrete conversion of which only a part is granted and the whole is written, over a frozen file |
| HolderNarrowing.RetriesOnlyTakeOff | apps/cli/src/lease-admission.ts:853-886 | however often a freeze is stale, the request it goes on with is the same claim by the same task, less what was handed back at some reading |
| HolderNarrowing.TurnsBeforeWereStale | apps/cli/src/lease-admission.ts:1020-1024 | another turn is taken exactly where the one before found the admitted set moved, as long as there are turns, and the holder is not asked again |
| HolderNarrowing.ArrivalAnswersIff | apps/cli/src/lease-admission.ts:1600-1849 | what an arrival is told and what is then stored, by what its freeze answered and whether the first reading can still be written |
| HolderNarrowing.ArrivalStaysOutOfDirtyFilesIff | apps/cli/src/lease-admission.ts:1600-1849 | whatever a narrowing is answered with, written or not: a file every reading found dirty is in that plan unless it was stored without it, and out of the arrival's reach exactly unless it is so stored or the holder's answer named it |
| HolderNarrowing.ArrivalOutOfReachIff | apps/cli/src/lease-admission.ts:1600-1849 | for every file: exactly which ones a narrowed answer puts out of the reach of every plan compatible with it, by what the answer stands on |
| HolderNarrowing.StoredAnswerGivesADirtyFileAway | apps/cli/src/lease-admission.ts:838-862 | a claim found converted is answered with the stored plan, unwritten, whatever file was found dirty |
| HolderNarrowing.FirstReadingIsDropped | apps/cli/src/lease-admission.ts:1703-1764 | a concrete file, dirty at the first reading only and not estimated, that the narrowing drops |
| HolderNarrowing.NarrowedIsHeld | apps/cli/src/lease-admission.ts:1740-1764 | the plan a narrowing answers with is never repository-wide and is what the holder's lease holds, as written or as last read |
| HolderNarrowing.NarrowedFootprint | apps/cli/src/lease-admission.ts:1670-1848 | a holder that cannot be asked keeps exactly what it was writing and the estimated files not wanted, all of the estimate if it has written nothing |
| HolderNarrowing.FailedReadingChangesIff | apps/cli/src/lease-admission.ts:1637-1816 | a failed first reading changes nothing; after a failed reading in the freeze's last turn the table changes exactly when that turn had no answer without reading, the lease and the admitted set read first still stand, and the plan is a new one |
| HolderNarrowing.FailedReadingStillNarrows | apps/cli/src/lease-admission.ts:1704-1816 | a concrete holder whose second reading fails and whose claim is narrowed all the same |
| HolderNarrowing.ArrivalNarrowsStoredIff | apps/cli/src/lease-admission.ts:1704-1816 | what an arrival writes narrows what is stored exactly when there is room in that for every file it names: nothing handed back under a claim, a subset under a freeze |
| HolderNarrowing.ArrivalWidensANarrowedClaim | apps/cli/src/lease-admission.ts:1704-1816 | a claim frozen to one file is rewritten to two by an arrival that read it before |
| PlanAuthority.AdmittedIsHonest | apps/cli/src/lease-admission.ts:376-617 | an admission on a live lease: over a refusal it is an overdue request's own plan, the trail says so exactly then, and no plan of the call is admitted; otherwise the returned plan is the one attempted, and the lease holds it exactly unless an earlier plan stood and was another |
| PlanAuthority.AnswerFollowsTheRuling | apps/cli/src/lease-admission.ts:363-617 | a live call is taken again exactly where its write found another admitted set; otherwise its answer, withheld files and refusing holders included, its trail's newest entry and its waiting follow from the admission it ends on |
| PlanAuthority.ALostLeaseIsLetThrough | apps/cli/src/lease-admission.ts:505-507 | a call whose lease is lost by the write goes on with its own plan and the table stands |
| PlanAuthority.WithoutALeaseNothingIsDecided | apps/cli/src/lease-admission.ts:295-312 | a call no live lease stands behind is let through as it is and leaves no mark |
| PlanAuthority.StandingIs | apps/cli/src/lease-admission.ts:323-375 | the first repository-wide claim read refuses the call, unless it has an estimate and was narrowed; then its holder's entries alone are replaced |
| PlanAuthority.BranchViewIff | apps/cli/src/lease-admission.ts:1958-1980 | a branch decides against exactly its own plans and what of another's still contends with it |
| PlanAuthority.ResubmissionIsAnsweredWithAnotherPlan | apps/cli/src/lease-admission.ts:1440-1486 | a concrete request answered with a plan its lease does not hold |
| PlanAuthority.OnlySaveWrites | apps/cli/src/lease-admission.ts:479-516 | the guarded write of one submission is all a call does to the table, and a refused widening makes none |
| PlanAuthority.ContractsAreStable | apps/cli/src/lease-admission.ts:479-516 | no call changes another lease, loses an admitted contract or replaces one without revising |
| PlanAuthority.WritesAreArbitrated | apps/cli/src/lease-admission.ts:420-502 | an admitted plan that is written is compatible with every other task's plan of its branch in the observed set, as it was finally viewed, none of them repository-wide; a second lease of the same task may be in that set |
| PlanAuthority.OwnBranchIsWhole | apps/cli/src/lease-admission.ts:1958-1980 | a plan of the deciding branch reaches the decision whole |
| PlanAuthority.ClaimIsGrantedIff | apps/cli/src/lease-admission.ts:624-789 | a repository claim is granted exactly when it is enabled, no other branch crosses, the task's own lease has no plan, nobody else was read in the repository and nobody admitted arrived before the write; then it reaches every file and is the repository's only admitted plan, else nothing is written |
| PlanAuthority.LeasePlanAuthority.WaitedMs | apps/cli/src/lease-admission.ts:1982-1992 | a refusal starts the clock or reads it, an approval leaves it |
| PlanAuthority.LeasePlanAuthority.Note | apps/cli/src/lease-admission.ts:1409-1430 | the trail after an answer is the specified one, and nothing else changes |
| PlanAuthority.LeasePlanAuthority.Publish | apps/cli/src/lease-admission.ts:1440-1512 | the answer and the whole new state are those of the specification |
| PlanAuthority.LeasePlanAuthority.RefuseBehindBlanket | apps/cli/src/lease-admission.ts:363-418 | the answer and the whole new state behind a repository-wide claim |
| PlanAuthority.LeasePlanAuthority.SettleVerdict | apps/cli/src/lease-admission.ts:479-617 | the answer and the whole new state once a verdict is in |
| PlanAuthority.LeasePlanAuthority.AdmitPlan | apps/cli/src/lease-admission.ts:292-617 | a whole call refines the function the properties above are proved of |
| PlanAuthority.LeasePlanAuthority.FreezeBlanketClaim | apps/cli/src/lease-admission.ts:802-1037 | the freeze, taken again as long as its write is stale, refines its function, each turn's readings of lease and neighbours apart, the set of holders asked included |
| PlanAuthority.LeasePlanAuthority.NarrowBlanketHolder | apps/cli/src/lease-admission.ts:1600-1849 | narrowing on arrival refines its function, the retries of the inner freeze and the set of holders asked included |
| PlanAuthority.LeasePlanAuthority.ClaimRepository | apps/cli/src/lease-admission.ts:624-789 | the claim and the table after it are those of the specification |
| PlanDecision.ApprovedIsArbitrated | services/coordinator/src/plan-admission.ts:677-722 | whatever is approved narrows the plan, is it unless something was withheld, and is compatible with every other task's plan, none of them repository-wide |
| PlanDecision.SplitIff | services/coordinator/src/plan-admission.ts:677-722 | a plan is split exactly when a part can be granted, no claim covers the repository, and the refusal is a claim's or one the request lets be answered so |
| PlanDecision.DecisionIs | services/coordinator/src/plan-admission.ts:677-722 | a split is the part that could be granted; behind a claim the refusal names exactly those whose claims hold a file of the plan; else it is what the declarations earned |
| AdmissionRuns.AttemptsAreDecisions | apps/cli/src/lease-admission.ts:420-502 | what a call is about to write is a decision the interleaved protocol allows, with the view it was made against |
| AdmissionRuns.FreezesAreRewrites | apps/cli/src/lease-admission.ts:888-1037 | every write of a freeze is a rewrite the protocol prepares and commits, leaving the same table |
| AdmissionRuns.ArrivalsAreRewrites | apps/cli/src/lease-admission.ts:1600-1849 | so is every write of an arrival, by either of its two ways |
| AdmissionRuns.ClockIsKept | apps/cli/src/lease-admission.ts:1982-1992 | a refusal on either path starts the clock or keeps it, and nobody else's call touches it |
| AdmissionRuns.OverdueIsNotRefused | apps/cli/src/lease-admission.ts:371-418 | an overdue request is not refused; behind a repository-wide claim it is let through exactly from the bound on |
| AdmissionRuns.WaitingIsBounded | apps/cli/src/lease-admission.ts:552-607 | through any sequence of calls, a never-split initial request is not refused at or after the bound from its first refusal |
| AdmissionRuns.SplitsAreRemembered | apps/cli/src/admission-history.ts:79-89 | every saved split is on the trail when the call returns, and is never forgotten |
| AdmissionRuns.SplitAtMostOnce | apps/cli/src/lease-admission.ts:323-326 | over any run of lawful calls in which no claim stands in the way of a task, it is split at most once, not at all once it has been, and never as a follow-up |
| AdmissionRuns.SplitsWithoutLeaveIff | services/coordinator/src/plan-admission.ts:677-722 | a call that may not split grants a part exactly when one can be granted and a claim short of the repository refuses the whole |
| AdmissionRuns.SplitAgainAroundAClaim | services/coordinator/src/plan-admission.ts:690-718 | and there it does, by the procedure's own rule and whatever the scoring says: a task split before is split again |
| AdmissionRuns.SplittingHasDepthOne | apps/cli/src/lease-admission.ts:1262-1324 | while no claim stands in the way of a follow-up, no task is more than one generation down |
| TaskStore.StepMoves | services/persistence/src/sqlite-store.ts:3012-3250 | every operation moves a row along one table of transitions or leaves it exactly as it was, and never drops a row or a lease |
| TaskStore.CallIsTakenIff | services/persistence/src/sqlite-store.ts:3057-3217 | each call on one task is taken from exactly the stated statuses, moves its row as the table says, and touches nothing else |
| TaskStore.SubmissionJoins | services/persistence/src/sqlite-store.ts:2865-2960 | a new task joins the queue or the planned, and settles the open turn of its conversation |
| TaskStore.WholeTableCalls | services/persistence/src/sqlite-store.ts:3012-3056 | claiming a queue takes exactly what could be claimed in it, and ending silent conversations exactly those |
| TaskStore.EligibleIff | services/persistence/src/sqlite-store.ts:1195-1250 | what may be leased: queued work that is asked for, of nobody excluded, with nothing unfinished before it, in a repository with fewer active leases than allowed |
| TaskStore.LeasingClaims | services/persistence/src/sqlite-store.ts:1250-1310 | a leased task is claimed now by one new lease of the asker's, for the time asked |
| TaskStore.HeartbeatIff | services/persistence/src/sqlite-store.ts:1425-1441 | a heartbeat keeps alive exactly a lease that has not lapsed |
| TaskStore.FinishIsTakenIff | services/persistence/src/sqlite-store.ts:1442-1487 | a lease is ended while it runs, or by the sweep once it has lapsed; its task goes back exactly when it is claimed and the lease was released or expired |
| TaskStore.ExpiryRequeuesIff | services/persistence/src/sqlite-store.ts:1488-1515 | the sweep returns to the queue exactly the claimed tasks with a lapsed lease |
| TaskStore.StepKeepsLease | services/persistence/src/sqlite-store.ts:1425-1515 | an ended lease is never touched again, a lapsed one stays lapsed, and no lease changes hands |
| TaskStore.OverSticks | apps/cli/src/commands.ts:1190-1280 | through any interleaving a cancelled or integrated row is never touched again |
| TaskStore.PausedSticks | apps/cli/src/commands.ts:1300-1392 | through any interleaving without a resume or a cancel of it, a paused row is never touched |
| TaskStore.OneRunnerKeptIff | services/persistence/src/sqlite-store.ts:1141-1310 | every operation keeps one active lease per task and none on a queued one, but a retry or resume exactly when no lease on it is active |
| TaskStore.LateReleaseRequeuesARunningTask | apps/cli/src/commands.ts:1353-1375 | a pause's release that arrives after a resume and a new lease puts the running task back in the queue |
| TaskStore.ReleaseRequeuesIff | apps/cli/src/commands.ts:214-233 | a release returns the task to the queue exactly when its row is claimed at that moment, and touches no other row |
| TaskStore.RetryRefusesMovedOn | apps/cli/src/recovery.ts:597-609 | of the ways a claimed row moves on, only its run's failure lets a requeue through |
| TaskStore.OldestEligible | services/persistence/src/sqlite-store.ts:1195-1250 | the unnamed request is given the first eligible task, and none exactly when there is none |
| ControlPlane.ListingIsExact | services/persistence/src/sqlite-store.ts:2970-3010 | a listing has exactly the rows kept, each once, oldest first |
| ControlPlane.CandidatesAre | apps/cli/src/commands.ts:1205-1240 | who is stopped, parked, brought back, reaped or found queued, by what is on their rows; an unnamed stop leaves open conversations and parked work alone |
| ControlPlane.CancelledSince | apps/cli/src/commands.ts:1190-1280 | a task cancelled at any point since is cancelled now |
| ControlPlane.StopsStick | apps/cli/src/commands.ts:1200-1280 | once cancelled, a row is the same after anything anybody does |
| ControlPlane.ControlPlane.CancelTasks | apps/cli/src/commands.ts:1200-1280 | it reaches exactly the rows named, or in an unnamed sweep the queued, running and planned of the agent and submitter asked for; under interference: reported tasks are cancelled and stay so, the others had ended, the newest lease seen on each reported one is out of the way, and nothing else was asked of the store; undisturbed, exactly those rows and leases change |
| ControlPlane.ControlPlane.PauseTasks | apps/cli/src/commands.ts:1324-1392 | the same for a pause, of the named rows that are queued or running: reported tasks were paused by this call, the others were not there to pause |
| ControlPlane.ActiveLeaseIsLeftIff | apps/cli/src/commands.ts:1200-1280 | of the active leases on a task that was stopped, one is left exactly when a newer one was listed with it or no lease was looked at |
| ControlPlane.ControlPlane.ResumeTasks | apps/cli/src/commands.ts:1406-1445 | only what was actually put back is reported; undisturbed, that is exactly the named paused rows |
| ControlPlane.ControlPlane.ReleaseLocalRunnerLeases | apps/cli/src/commands.ts:189-241 | every lease of the worker is out of the way, and reported are exactly the tasks of leases it released that are queued at the end |
| ControlPlane.ControlPlane.ReapStrandedWork | apps/cli/src/recovery.ts:572-617 | under interference only unleased candidates are asked back and each outcome is reported truly; undisturbed, exactly the stranded tasks go back and nothing else changes |
| ControlPlane.ControlPlane.DrainInFlightWork | apps/cli/src/recovery.ts:632-657 | under interference no lease of the worker is left standing, every task reported was queued, and every unleased claim found after is reported or had moved on; undisturbed, exactly the stranded claims go back |
| ControlPlane.ControlPlane.SettleEntry | apps/cli/src/commands.ts:2143-2222 | it throws exactly when the store cannot record the entry, or put it back, and nobody stopped the task; an outcome is then on its row, a requeued task queued or moved on, and its lease ended, released, completed or failed as the entry says |
| ControlPlane.ControlPlane.SettleRun | apps/cli/src/commands.ts:2143-2312 | whichever way a run ends, no lease of a task nobody stopped is left standing and nothing is asked that its entries do not call for; it ends well only with every outcome on its row, every requeued task back or moved on and every lease ended as its task's entry says, and badly only with every task of the wave out of `claimed` |
| Dispatch.LeaseStep | services/persistence/src/sqlite-store.ts:1141-1310 | a request sweeps lapsed leases, is refused exactly when nothing it may have is eligible, and otherwise leases one eligible task |
| Dispatch.EligibilityFades | apps/cli/src/commands.ts:357-373 | leasing one task makes no other eligible |
| Dispatch.ReadyComesFirst | apps/cli/src/commands.ts:243-281 | while a ready task lacks only room, no task known to wait has been leased |
| Dispatch.OldestFirst | apps/cli/src/commands.ts:329-338 | the order tried is that of submission, but for the work known to wait, which comes last |
| Dispatch.LeaseQueuedWork | apps/cli/src/commands.ts:282-390 | under interference, however long the drain is followed, every task leased was taken, claimed under a lease of its own for this worker, and by name was pending; undisturbed it still is, nobody lacking only room was passed over, the drain ends, and without a branch nothing leasable is left |
| Recovery.ResumableChangeSet | apps/cli/src/recovery.ts:137-150 | the last changeset of the task without a recorded integration, and none exactly when there is none |
| Recovery.DetourRemovesOnlyItsTask | apps/cli/src/recovery.ts:248-272 | claiming the queue and handing it back integrates the promoted task and leaves every other row and every lease as it was |
| Recovery.PromotedRowIsIntegratedIff | apps/cli/src/recovery.ts:248-272 | a promoted task's row is integrated exactly when it does not wait behind another; if it does, it stays queued and the rest is left claimed |
| Recovery.NoRunIsLeftRunning | apps/cli/src/recovery.ts:407-451 | no run is left running; each task of one that was ended as promoted, failed or as it had; the run completed exactly when all succeeded |
| Recovery.NothingDecidedIsApplied | apps/cli/src/recovery.ts:137-150 | no changeset is applied twice, and none with a recorded outcome |
| Recovery.AppliedIff | apps/cli/src/recovery.ts:163-299 | integrated are exactly the last undecided changesets of unfinished tasks, in running runs of known repositories |
| Recovery.FailedRunsAreReported | apps/cli/src/recovery.ts:407-451 | reported as failed are exactly the running runs that end failed, oldest first |
| Recovery.LapsedAreReported | apps/cli/src/recovery.ts:306-340 | reported as expired are exactly the lapsed leases |
| Recovery.SweepLeavesLeasedIff | apps/cli/src/recovery.ts:572-617 | after a sweep every claimed task is leased exactly when no unleased claim was as young as the bound |
| Recovery.EveryClaimIsLeased | apps/cli/src/recovery.ts:388-405 | after a recovery every claimed task has an active lease |
| Recovery.PromotedIsNeitherRequeuedNorFailed | apps/cli/src/recovery.ts:306-472 | a promoted task is integrated, reported and not requeued unless its row waited behind another from the start; every other row is kept but for lapsed and stranded claims, and what a detour that failed left claimed |
| Recovery.NothingElseIsTouched | apps/cli/src/recovery.ts:306-472 | with one runner for each task and a pass that takes time, every task not resumed ends as the expiry left it or back in the queue |
| Recovery.PromotedBehindARetry | apps/cli/src/recovery.ts:248-272 | a concrete run of the store after which a recovery integrates a changeset and completes its run but leaves the task queued |
| Recovery.RecoveryIsAFixedPoint | apps/cli/src/recovery.ts:300-472 | a second pass before a lease lapses resumes, requeues, fails and expires nothing and changes nothing |
| Recovery.ControlPlaneRecovery.SettleRow | apps/cli/src/recovery.ts:248-272 | the promoted row and its queue end as specified, and whether the bookkeeping went through is told truly |
| Recovery.ControlPlaneRecovery.ResumeStrandedResults | apps/cli/src/recovery.ts:163-299 | runs, rows, the applied changesets and the report are those of the specification |
| Recovery.ControlPlaneRecovery.FailStrandedRuns | apps/cli/src/recovery.ts:407-451 | every running run is closed as specified and reported exactly when it failed |
| Recovery.ControlPlaneRecovery.RecoverCoordinationState | apps/cli/src/recovery.ts:306-472 | the whole pass refines the function the recovery properties are proved of |
| LineStream.LinesRejoin | adapters/generic-cli/src/protocol.ts:155-193 | splitting into lines loses and invents nothing, and no line or leftover holds a newline |
| LineStream.CutAnywhere | adapters/generic-cli/src/protocol.ts:155-193 | text that arrives after a cut is read as though it had never been cut |
| LineStream.JsonLineDecoder.Push | adapters/generic-cli/src/protocol.ts:163-185 | the lines returned and the leftover kept, or the overflow, for any buffer and chunk |
| LineStream.JsonLineDecoder.Flush | adapters/generic-cli/src/protocol.ts:187-193 | the leftover is delivered unless blank, and dropped |
| LineStream.Decode | adapters/generic-cli/src/protocol.ts:155-193 | any cutting delivers exactly the non-blank stripped lines of the whole stream, and fails exactly when a leftover outgrows the cap |
| LineStream.FramedMessageIsOneLine | adapters/generic-cli/src/protocol.ts:147-153 | a framed message comes back as itself |
| LineStream.CarriageReturnIsFraming | adapters/generic-cli/src/protocol.ts:155-157 | a message framed with a carriage return and a newline comes back as itself |
| LineStream.UnitsAreUtf16 | adapters/generic-cli/src/protocol.ts:175-180 | what the cap is compared with is the number of UTF-16 code units |
| ContextPressure.ContextPressureMonitor.ConsumeLine | adapters/prompt-cli/src/context-pressure.ts:251-318 | the state after a line is that of observing its event, and the signal is that event's |
| ContextPressure.ContextPressureMonitor.Write | adapters/prompt-cli/src/context-pressure.ts:230-249 | a chunk's complete lines are observed in order and its tail is kept |
| ContextPressure.Watch | adapters/prompt-cli/src/context-pressure.ts:230-249 | any cutting of a stream leaves the same state and the same signals |
| ContextPressure.TotalIsItsParts | adapters/prompt-cli/src/context-pressure.ts:319-370 | after any events the total is input, output, cache read and cache creation together |
| ContextPressure.BilledOncePerMessage | adapters/prompt-cli/src/context-pressure.ts:319-355 | where every report names its message, each figure is the sum, over the distinct messages, of the first usage reported for each and no other |
| ContextPressure.FirstReportsAreFirst | adapters/prompt-cli/src/context-pressure.ts:319-355 | the reports counted are one for each message reported, the first that carried its id |
| ContextPressure.RepeatsAreFree | adapters/prompt-cli/src/context-pressure.ts:319-355 | a message reported again, anywhere, adds nothing |
| ContextPressure.BilledAsCharged | adapters/prompt-cli/src/context-pressure.ts:319-355 | whether or not reports name their messages, the bill is the sum of the first of each message and of each change of occupancy without one |
| ContextPressure.TurnsAreChanges | adapters/prompt-cli/src/context-pressure.ts:251-318 | a turn is counted for each change of the occupancy reported, and the latest is the last reported |
| ContextPressure.CompactionsAreKept | adapters/prompt-cli/src/context-pressure.ts:251-318 | the compactions seen are the boundaries streamed, in order, with their own figures |
| ContextPressure.DroppedIs | adapters/prompt-cli/src/context-pressure.ts:251-318 | the tokens dropped are the last running total streamed and what was freed after it, or without one all that was freed |
| ContextPressure.StaleIff | adapters/prompt-cli/src/context-pressure.ts:251-318 | the reading is stale exactly when somebody has spoken since the last report |
| ContextPressure.SignalTells | adapters/prompt-cli/src/context-pressure.ts:251-318 | a turn's signal carries its whole occupancy and its output, a compaction's its own figures |
| ContextPressure.PeakIsTheMaximum | adapters/prompt-cli/src/context-pressure.ts:251-318 | the peak bounds every reported occupancy and pre-compaction figure, and is one of them |
| PromptSplit.JoinsBackIff | adapters/prompt-cli/src/index.ts:104-151 | joining with spaces is the rejoined prompt exactly when every cut consumed a space |
| PromptSplit.ForcedCut | adapters/prompt-cli/src/index.ts:128-142 | a cut that finds no space shows a stretch too long |
| PromptSplit.SplitPromptArguments | adapters/prompt-cli/src/index.ts:104-151 | no word is over 96 KiB, the words with the consumed spaces are the prompt, no cut is made before it has to be, and joined with spaces they are the prompt exactly when its space-free stretches fit |
| PromptSplit.Utf8ReadsBack | adapters/prompt-cli/src/index.ts:119-121 | the width of a code point is the number of bytes that read back as it |
| PromptSplit.BytesAreUtf8 | adapters/prompt-cli/src/index.ts:104-107 | what is measured is the number of UTF-8 bytes of the text |
| Toml.TomlString | adapters/codex/src/index.ts:615-636 | the printed string is read back as the value, for every value |
| Toml.StringReadsBack | adapters/codex/src/index.ts:615-636 | a printed string reads back as itself whatever follows |
| Toml.ArrayReadsBack | adapters/codex/src/index.ts:638-640 | a printed array reads back as itself |
| Toml.TableReadsBack | adapters/codex/src/index.ts:643-650 | a printed inline table reads back as itself, in order, keys quoted or bare |
| McpOverrides.BearerTokenIff | adapters/codex/src/index.ts:713-725 | the token found is the only way to read the header as "Bearer", white space and one word |
| McpOverrides.TokenIff | adapters/codex/src/index.ts:713-725 | a token is found exactly in a single header, called authorization in any case, that reads as a bearer's |
| McpOverrides.CarriableIff | adapters/codex/src/index.ts:682-725 | what a server must be to be given: a valid name, a command or address that is not blank, and headers that are none or a bearer's |
| McpOverrides.ServerNameIff | adapters/codex/src/index.ts:612-613 | a server's name is a bare key of at most sixty-four lower-case characters that starts with a letter or digit |
| McpOverrides.ToldIff | adapters/codex/src/index.ts:699-742 | Codex is told exactly each setting of each server under that server's name |
| McpOverrides.VariablesDifferIff | adapters/codex/src/index.ts:731-742 | a minted variable is a valid name, and two servers share one exactly when their names differ in nothing but dashes and underscores |
| McpOverrides.ArgsReadBack | adapters/codex/src/index.ts:669-745 | the words on the command line read back as the overrides that were meant |
| McpOverrides.AcceptableOne | adapters/codex/src/index.ts:682-740 | a server may be added exactly when it can be carried and collides with none before it |
| McpOverrides.CodexMcpOverrides | adapters/codex/src/index.ts:669-745 | the set is taken exactly when every server can be carried and no two collide; what is taken is told whole and in order, each bearer server's variable holds its own token; a refusal names the first spoiler and why |
| RequestDriver.StepKeepsInv | adapters/generic-cli/src/index.ts:158-311 | every input keeps each wait settled at most once and the pending one unsettled, a failed process with nothing pending, and the first failure |
| RequestDriver.FailureIsPermanent | adapters/generic-cli/src/index.ts:302-310 | from a failure on, the same failure, nothing pending, and every later wait rejected with it |
| RequestDriver.CloseSettlesEverything | adapters/generic-cli/src/index.ts:141-156 | whatever came before and comes after, every wait is settled exactly once and none outlives the close |
| RequestDriver.RepliesAnswerInOrder | adapters/generic-cli/src/index.ts:247-287 | while nothing has failed the replies are exactly the answers, in order; events are passed on in order always |
| RequestDriver.LineMeans | adapters/generic-cli/src/index.ts:247-287 | what a line does to a working process: an event passes, a reply of the kind asked for resolves, an agent's error is reported, and any other line fails the process for what it was |
| RequestDriver.TimerRejectsItsOwn | adapters/generic-cli/src/index.ts:182-192 | a timer fails its own request, and the process, as timed out, and no other |
| RequestDriver.EndingMeans | adapters/generic-cli/src/index.ts:137-156 | an overlong line, a child that cannot start and its exit each fail the process as that and reject the pending request |
| RequestDriver.AskingMeans | adapters/generic-cli/src/index.ts:170-206 | a request of a working process waits, or is told that another does |
| RequestDriver.CutChunksAreOneChunk | adapters/generic-cli/src/index.ts:234-246 | a chunk cut in two leaves the driver where the whole one does |
| RequestDriver.AgentReadsWhatIsSaid | adapters/generic-cli/src/protocol.ts:147-153 | while nothing has failed, the lines written read back as the messages said, whole and in order |
| RequestDriver.OnlyWhatIsSaidInTimeIsWritten | adapters/generic-cli/src/index.ts:158-168 | what the agent reads in all is what was said before the first failure, the close included; whatever is said afterwards is refused with that failure and nothing of it is written |
| RequestDriver.AgentProcess.WaitFor | adapters/generic-cli/src/index.ts:170-206 | a wait is registered, or settled at once, as specified |
| RequestDriver.AgentProcess.OnLine | adapters/generic-cli/src/index.ts:247-287 | the state after a line is the specified one |
| RequestDriver.AgentProcess.OnData | adapters/generic-cli/src/index.ts:234-246 | the state after a chunk is the specified one, overflow included |
| RequestDriver.AgentProcess.OnClose | adapters/generic-cli/src/index.ts:141-156 | the leftover is read, then everything pending is rejected |
| RemoteHolders.StepKeepsInv | apps/cli/src/remote-holders.ts:107-237 | every step, stale closures included, keeps each ask delivered at most once and each waiter answered exactly once, the same as everyone on its ask |
| RemoteHolders.SettleAnswersItsAsk | apps/cli/src/remote-holders.ts:155-171 | the right id answers exactly the waiters of that ask, with the declaration it brings; any other changes nothing |
| RemoteHolders.HeartbeatIsToldIff | apps/cli/src/remote-holders.ts:134-141 | over any run, a heartbeat is told of an ask exactly when one is out and no heartbeat before it was told, and is told that ask's own id |
| RemoteHolders.ToldIdSettlesItsAsk | apps/cli/src/remote-holders.ts:134-171 | the id told settles its ask for as long as that is out, and exactly those who joined it get the declaration |
| RemoteHolders.ReleaseAnswersNobody | apps/cli/src/remote-holders.ts:212-225 | letting go of a task tells exactly those who wait on it that no answer is coming, and touches no other task |
| RemoteHolders.ReleaseLeavesNothingIff | apps/cli/src/remote-holders.ts:235-237 | a release by task leaves nothing of it exactly when it has a disposer or had nothing, and nothing of others' is lost |
| RemoteHolders.OrderlyKeepsTidy | apps/cli/src/remote-holders.ts:180-237 | orderly use keeps every ask and reading under a disposer, so every release is complete |
| RemoteHolders.StaleReleaseLeavesAnAsk | apps/cli/src/remote-holders.ts:212-229 | a closure leaves a later ask beyond the reach of a release exactly when its registration has been replaced |
| RemoteHolders.ReplacedClosureIsStale | apps/cli/src/remote-holders.ts:180-229 | two registrations of a task reach that state |
| RemoteHolders.Registry.AskToDeliver | apps/cli/src/remote-holders.ts:134-141 | the ask's id, once, as specified |
| RemoteHolders.Registry.SettleDeclaration | apps/cli/src/remote-holders.ts:155-171 | the answer and the maps after it are those of the specification |
| RemoteHolders.Registry.Declare | apps/cli/src/remote-holders.ts:189-210 | a new ask, or a waiter joined to the one that is out |
| RemoteHolders.Registry.Release | apps/cli/src/remote-holders.ts:212-225 | everything of the session's task is let go of, as specified |
| RemoteHolders.Registry.RegisterRemoteHolder | apps/cli/src/remote-holders.ts:180-229 | the holder is published and the one before it released |
| RemoteHolders.FreshIsTheLatest | apps/cli/src/remote-holders.ts:115-124 | over any run, a freeze is offered exactly the latest reading brought since the task was last released, and only while it is no older than the bound |

## Left out

- AdmissionProtocol.AdmittedPlansAreExclusive: holds where what is written narrows what it replaces or replaces what nobody is deciding on, because the swap does not compare plans, and between different tasks (finding 1).
- AdmissionRuns.SplitAtMostOnce: holds while no claim stands in the way of the task (finding 2).
- AdmissionRuns.SplittingHasDepthOne: holds while no claim stands in the way of a follow-up (finding 2).
- HolderNarrowing.ArrivalStaysOutOfDirtyFilesIff: an arrival can be granted a dirty file, because an answer from a claim converted already is not read against the worktree (finding 13).
- HolderNarrowing.NoReWidening: about freezes that read the lease as it stands at their write; an arrival that cannot ask may widen (finding 12).
- Recovery.EveryClaimIsLeased: about tasks of kind `task`; a claimed question is not in the listing the sweep reads. It needs resuming to take any time at all, the bound being strict.
- RemoteHolders.OrderlyKeepsTidy: holds while readings come from registered holders and only current closures are called (finding 8).
- Dispatch.LeaseQueuedWork: the order of leasing is stated where nobody else uses the store; others can make room for the unnamed drain without end, so it is followed for any given number of requests.
- Inside the decision procedure: conflict scoring, grounding and enrichment of plans and the choice of what to withhold are known only by `Lawful`.
- A holder's lease found anew inside an arrival's freeze is taken to be the one found first.
- Interfaces across branches: what of a plan another branch contends with is a value, and exclusivity is stated per branch.
- Claims of a whole directory, and the normalising and refusing of paths.
- Line ranges of a frozen plan; a plan's files are whole or by symbol.
- Plan revision numbers, retry intervals and the wording of explanations and audit records other than the admission trail.
- The admission path of remote workers, which repeats this one over HTTP.
- Asking a holder that already answered: the cache of answers in services/coordinator/src/blanket-holders.ts.
- A crash between a saved admission and its trail entry.
- Questions leased to workers, and leases restricted to one owner's own machine.
- Integrating a changeset, worktrees, scratch directories, lease refs and threads told about a restart; integration is a parameter that promotes, refuses or throws.
- A store that fails in the middle of a pass, and run lists longer than the 500 that are read.
- The moment a sweep reads the clock: the store's clock at each operation stands for a time taken slightly earlier.
- Concurrent requests inside one process other than at store calls.
- ContextPressure: figures are reals, so the rounding of very large sums is not modelled.
- Unpaired UTF-16 surrogates; text is a sequence of Unicode scalar values.
- Comments, literal strings and multi-line strings in TOML, which the printer does not produce.
- Standard error kept for messages, the timers themselves and the five-second kill.
- Token usage read out of a finished execution, and every field-by-field message check.
