# Verified model of Segreant's accounting core

Segreant accounts for spend on AI providers. Its claims rest on a few dense algorithms, and this project
models five clusters of them in Dafny and proves what they promise:

- **The autonomous budget controller.** One decision step, the write-ahead journal, the order in which the
  driver writes its files, crashes between any two writes, operator edits, recovery, the hash-linked audit
  history and the lock files. Results hold for every run of any length.
- **The exact allocation engine.** Rows are routed by rules into groups, groups are split exactly, and an
  independent validator recomputes the result. Conservation, lineage, acceptance, and exactly when row order matters.
- **Randomized studies.** The inference ledger and its error budget, block assignment, qualification, the
  stratified estimator and off-policy evaluation.
- **Reconciliation and mapping.** The provider comparison and what ledger pruning does to it, the declarations
  that map charge lines to projects, and decimal text.
- **Cap decision and reallocation.** The interval of realized spend under a cap, and the transfer loop.

Money is an integer coefficient with a decimal scale, and `Money.Value` is the real number it denotes. Amounts
compare, add and split exactly or are refused, as in the source. Digests are arbitrary functions: where the
source relies on them, the result says that either the two things agree or a collision has been exhibited, so
nothing is assumed about any hash but the shape of its output. Binary floating point is modelled by real numbers.

Where the source loops over mutable state, the model has a method with that loop, proved against a
specification function or predicate; the lemmas are about the specification.

What an operation returns is also told a second time, without the functions that compute it: from the rows, records,
days or cells it is about. The modules whose names end in `Meaning` do that, and `ControlTicks`,
`AllocationInputs` and `AllocationListings`; the estimator and the cap decision say it in their own contracts.

## What the proofs found

Some properties one would expect do not hold of the code. Each is stated with the inputs that show it and with the
condition under which it does hold.

- Allocation depends on the order of rows if and only if two rows are in conflict or a tie shows which row came
  first, for every collation (`AllocationOrderShows.OrderMattersExactly`). Two rows are in conflict when they meet in
  one claimed group, but the rules that claim them, of one name and version, differ in method or targets: the group
  keeps the rule of its first row (`AllocationConflicts.ConflictMatters`). Names tie that `localeCompare`, here any
  collation, does not tell apart; JavaScript's sort is stable and leaves them as they came. `AllocationTies.TiesShow`
  lists the ties that rows can turn round: of two identities, two claimed lines, two pools, two drivers of a pool,
  two unplaced entries of one reason, or two projects of an entry with fewer than five ahead of them. Where no names
  tie, only conflicts are left (`AllocationOrderShows.ConflictMattersExactly`).
- The comment at `src/alloc/rules.ts:235` says rules are never taken in insertion order. Two rules of one priority
  and name are: a row goes to one rule in whatever order the rules are supplied if and only if no two different rules
  tie for its lead (`AllocationRules.RuleOrderMattersExactly`).
- `verifyActChain` never recomputes the genesis digest, and the plan is not under the chain
  (`InferenceLedger.GenesisIsNotVerified`).
- A plan is compared with the alpha of the latest act only, and repeating an act is free. So whatever is recorded
  directly at rates up to r, a covered claim has spent at most its plan's target if and only if r is at most the
  plan's share of one act, or the plan names no slice (`StudyReports.RatesArePaidForExactly`); for every greater
  rate one look escapes (`StudyReports.DearLookEscapes`). Through the reporting function all acts have one rate,
  and then a standing claim is paid for (`StudyReports.StandingClaimIsPaidFor`).
- Acts in the budget are the distinct interval keys if and only if no interval was reported on a key that had
  been read without one (`InferenceLedger.BudgetIsDistinctKeys`). Through the reporting function that condition
  always holds, short of a digest collision.
- The comment at `src/budget/onlineControl.ts:349` says a manual edit ends the controller's authority. In the
  code the controller acts on a trusted decision if and only if the live cap is its own last one
  (`BudgetControl.RestoredCapRestoresAuthority`), so a run that overrides the cap and puts it back ends with the
  decision applied (`ControlRecovery.RestoredCapIsActedOn`).
- A rollback that is stored but not in the audit yet can be undone by putting the old cap back
  (`ControlRecovery.UnrecordedRollbackCanBeUndone`). Recovery takes a stored state back if and only if its
  transaction is still open and the live cap is the one of before, a different one
  (`ControlRecovery.RecoveryUndoesExactly`).
- In qualification the missingness-limit reason is unreachable, and so is the `collecting` state for a study
  without decisions: such a study is refused for want of support (`Qualification.QualifyCausalStudy`).
- In off-policy evaluation the overlap bound does not bind once clipping above it is declared, even clipping that
  clips nothing, unless the policy's bound or the propensity floor keeps weights below it
  (`OffPolicy.OverlapBindsExactly`). And the self-normalized estimate may lie outside the contribution range the
  same report gives. The weights of a log keep it inside for all rewards within the bounds if and only if a
  comparison of sums says so (`ContributionRange.SelfNormalizedStaysInsideExactly`); where rewards may have either
  sign, if and only if the weights add up to their number, or one is zero and they add up to at least the number
  of positive ones (`ContributionRange.MixedBoundsExactly`).
- A qualified study may assign one unit many times. The gates check the shape of each unit and the digest of the
  record that names it, but no gate compares the units of two decisions: of every qualified study and any well-shaped
  units, the study rebuilt with these units, its records hashed and linked anew, qualifies
  (`StudyUnits.AnyUnitsQualify`, `StudyUnits.OneUnitQualifies`). Blocks that replay from their plans pass every gate
  on decisions whatever units the plans share, and every unit is assigned once if and only if they share none
  (`StudyUnits.PlansPassDecisionGates`).
- A reallocation may project a loss, since its moves follow the returns and its gains the realized rates
  (`ReallocationMoves.LosingPlan`). A move loses if and only if the rate is lower where it leads
  (`ReallocationMoves.GainSignExactly`), so none does where rates follow returns
  (`ReallocationMoves.NoMoveLoses`). Given the returns and rates of some profiles, no spends, floor and tilt make a
  plan that loses if and only if no profile of a higher, positive return realizes less than one of a lower return
  (`ReallocationGains.NoPlanLosesExactly`).
- A refutation on a pruned ledger implies the one on the full ledger, for every provider snapshot, if and only if
  the deleted counted rows do not add up to a credit (`Reconciliation.TotalVerdictSurvivesExactly`, and per day
  `Reconciliation.DayVerdictSurvivesExactly`). The full ledger must reconcile at all: pruning lifts a refusal
  exactly when it deletes every row that refuses the run (`Reconciliation.PruningLiftsExactly`).
- A mapping evaluation succeeds in every order of its records if and only if the positive amounts, and the
  negative ones, each add up within the safe range (`BillingMapping.NoOrderIsRefused`). Otherwise whether it is
  refused can depend on that order (`BillingMapping.RefusalDependsOnOrder`).
- `canonicalApiDecimal` is exact if and only if the amount is zero or the mantissa does not begin with a zero
  (`DecimalText.ApiDecimalExactly`). No number that JavaScript prints with an exponent has such a mantissa.

## Model

| member | source | states |
|---|---|---|
| Money.NormalizeLoop | src/economics/money.ts:85-96 | the loop that strips trailing zeros returns a canonical amount of unchanged value |
| Money.CanonicalUnique | src/economics/money.ts:85-96 | a value has exactly one canonical form, so equal values are equal records |
| Money.Add | src/economics/money.ts:134-137 | the sum is canonical and its value is the sum of the values |
| Money.Compare | src/economics/money.ts:147-152 | the sign of the comparison is that of the comparison of values, both ways |
| Money.AddIsCommutativeAndAssociative | src/economics/money.ts:134-137 | adding in any order and grouping gives the same record |
| Rate.GcdIsCombination | src/economics/rate.ts:293-298 | Euclid's result divides both numbers and is an integer combination of them |
| Rate.Strip | src/economics/rate.ts:328-329 | dividing a factor out leaves a number it does not divide, times its counted power |
| Rate.TerminatingDecimal | src/economics/rate.ts:316-338 | a decimal that comes back times the denominator is the numerator |
| Rate.RefusedOnlyWhenEndless | src/economics/rate.ts:326-330 | if any decimal at all has the value n/d, one is found, so a refusal means there is none |
| Rate.ShareOfIsExactOrRefused | src/economics/rate.ts:345-355 | a share comes back precisely when it is the canonical amount of that exact value within the scale limit |
| Rate.MillionthsNeverRefused | src/economics/rate.ts:345-355 | a share in parts per million is never refused for want of a finite decimal, six digits below the scale limit |
| DigestChain.Verify | src/budget/onlineControl.ts:576-590 | reports the first record that breaks the chain: everything before it verifies, and with it the history does not |
| DigestChain.AppendKeepsVerified | src/budget/onlineControl.ts:443-476 | appending to a verified history yields a verified one |
| DigestChain.SameHeadSameHistory | src/budget/onlineControl.ts:576-590 | two verified histories with one head are equal element by element, or two different records with one digest are exhibited |
| BudgetControl.SameAmount | src/budget/onlineControl.ts:181-184 | canonical caps compare equal exactly when they are the same record |
| BudgetControl.RelativeStepIsExact | src/budget/onlineControl.ts:195-206 | the cross-multiplied integer test decides exactly whether the real distance exceeds step times current cap |
| BudgetControl.MakePolicy | src/budget/onlineControl.ts:223-261 | a policy is accepted precisely when it meets every declared bound |
| BudgetControl.ReArmNeedsNewerVersion | src/budget/onlineControl.ts:291-312 | under one id the same policy returns its state unchanged; otherwise a newer version arms, and only at its own baseline |
| BudgetControl.PlanKeepsEarned | src/budget/onlineControl.ts:340-437 | one decision either changes nothing or takes one legal action: one revision up, from the owned cap, into the envelope, within the step, never out of rolled_back |
| BudgetControl.StepsCompound | src/budget/onlineControl.ts:195-221 | a cap n applied steps from the baseline lies within baseline times (1 -/+ step) to the n |
| BudgetControl.PlanIsDetermined | src/budget/onlineControl.ts:363-437 | a plan is refused precisely when the runaway limit or the live cap is not positive, or the cap it comes down to is not; otherwise action, target, reason and next state are those that policy, state and input call for |
| BudgetControl.PlanActsExactly | src/budget/onlineControl.ts:340-437 | a readable decision is applied precisely when it is trusted, the live cap is the owned one and the target another; the baseline is restored precisely when a controlling state of an issued policy owns the live cap and the decision is not trusted |
| BudgetControl.ReconcileExactly | src/budget/onlineControl.ts:291-323 | a stored state of this very policy goes on unchanged if it is sound; any other starts anew, only at the baseline and never from a newer version of the same policy |
| BudgetControl.RestoredCapRestoresAuthority | src/budget/onlineControl.ts:419-436 | from a controlling state, a trusted decision for another cap is applied if and only if the live cap is the last one applied, and otherwise only an override is reported |
| ControlJournal.AppendKeepsDistinct | src/budget/onlineControl.ts:457-459 | an append that is not refused keeps transaction ids pairwise distinct and records exactly one more |
| ControlJournal.StepKeepsInv | src/cli/controlCmd.ts:253-312 | every write, crash, edit, tick and recovery keeps the invariant over journal, cap, state and audit |
| ControlJournal.RunKeepsInv | src/cli/controlCmd.ts:184-312 | the invariant holds after every run from a fresh installation |
| ControlJournal.EveryTransactionRecordedOnce | src/budget/onlineControl.ts:539-574 | in every run the audit verifies, ids are distinct, and a journaled transaction is recorded or is the one still pending |
| ControlJournal.FilesAgree | src/cli/controlCmd.ts:253-312 | with the journal clear and no edit since, live cap, state and last audit event agree, and the revision counts the recorded actions |
| ControlJournal.OnlyOwnedCapsAreOverwritten | src/budget/onlineControl.ts:340-437 | only the commit of a journaled action changes the cap; it replaces the cap the controller owns by one inside [min, max] |
| ControlJournal.WrittenCapsCompound | src/budget/onlineControl.ts:195-221 | in every run a written cap is the baseline or within as many compounded steps of it as there are recorded actions |
| ControlJournal.RecoveryRestarts | src/cli/controlCmd.ts:138-182 | a recovery interrupted after any write and run again ends as one uninterrupted recovery, and twice is once, also when both caps are equal |
| ControlJournal.CrashIsAtomic | src/cli/controlCmd.ts:278-312 | after a crash behind any number of a tick's writes, recovery leaves it wholly aborted or wholly committed, as the live cap says |
| ControlJournal.RefusedOnlyForForeignCap | src/budget/onlineControl.ts:557-573 | recovery is refused precisely when the transaction is open and the live cap is neither of its two caps |
| ControlJournal.RolledBackIsTerminal | src/budget/onlineControl.ts:378-380 | after a recorded rollback no run moves the stored state and only an edit changes the cap |
| ControlRecovery.EveryRecoverySettles | src/cli/controlCmd.ts:138-182 | after any run, a recovery of an open transaction that is not refused ends with the journal clear, the transaction recorded once, the outcome of the live cap, and cap, state and last event agreeing |
| ControlRecovery.RecoveryUndoesExactly | src/budget/onlineControl.ts:539-574 | a stored state is taken back if and only if its transaction is open and the live cap is the one of before, which differs |
| ControlRecovery.UnrecordedRollbackCanBeUndone | src/budget/onlineControl.ts:559-573 | a rollback interrupted behind its state write, with the old cap put back by hand, recovers to the controlling state of before |
| ControlRecovery.TickAtCap | src/cli/controlCmd.ts:253-300 | a tick on a trusted decision journals the decided cap if the controller's own cap is live, and otherwise stores nothing new and reports the override |
| ControlRecovery.RestoredCapIsActedOn | src/cli/controlCmd.ts:253-312 | a run that overrides the cap, ticks, puts the cap back and ticks again reports the override once and ends with the decided cap applied |
| ControlTicks.TickIsFiled | src/cli/controlCmd.ts:253-312 | a tick begins precisely when a state is stored or the baseline is live and the inputs are readable; its writes then leave exactly the files of the one plan these call for, and otherwise nothing changes |
| ControlTicks.UntrustedTickRestores | src/budget/onlineControl.ts:363-437 | on everything but a trusted decision, a controlling state that owns the live cap journals the return to its baseline, and the writes restore it |
| ControlTicks.RecoveryIsFiled | src/cli/controlCmd.ts:138-182 | a recovery finishes or takes back an open transaction as the live cap says, clears a recorded one, and otherwise changes nothing |
| ConfigLock.StepKeepsInv | src/config.ts:754-834 | every file effect of every process, and every crash, keeps ownership and the commit history |
| ConfigLock.RunKeepsInv | src/config.ts:849-866 | in every interleaving at most one process is past its create, and each update was computed from the configuration committed just before it |
| ConfigLock.HolderProvesOwnership | src/config.ts:798-807 | the ownership check never refuses the process that holds the lock |
| ConfigLock.OnlyOwnLockIsRemoved | src/budget/controlLock.ts:43-62 | the file disappears only in a step of the process whose generation it is, while nobody else holds anything |
| ConfigLock.StaleLockFreezes | src/budget/controlLock.ts:12-19 | once the creator of the lock is gone, no step of any process changes the configuration again |
| ConfigLock.TransactionCompletes | src/config.ts:849-866 | with the lock free and no other step between, a transaction commits what it computed from what it read, and leaves the lock free, or only its file if the unlink fails |
| InferenceLedger.RecordInferentialActs | src/causal/inference-ledger.ts:276-334 | a blank slice refuses the whole look; otherwise sequence, predecessor, look and novelty of every act come from the ledger alone |
| InferenceLedger.VerifyActChain | src/causal/inference-ledger.ts:340-349 | the loop accepts precisely the ledgers whose acts chain from the genesis digest to the head |
| InferenceLedger.SameDigestSameActs | src/causal/inference-ledger.ts:340-349 | two intact ledgers with one digest hold the same acts from one genesis, or a collision is exhibited |
| InferenceLedger.GenesisIsNotVerified | src/causal/inference-ledger.ts:340-349 | emptying a ledger, or replacing its plan, still verifies |
| InferenceLedger.BudgetCountsFirstIntervals | src/causal/inference-ledger.ts:336-338 | the budget has one act for each key whose first act reported an interval |
| InferenceLedger.BudgetIsDistinctKeys | src/causal/inference-ledger.ts:336-338 | the budget is as large as the set of interval keys if and only if each such key was reported on from the first |
| StudyReports.OpenedKeepsAccount | src/causal/inference-ledger.ts:205-227 | a ledger just opened has an intact chain, true novelty marks and one act rate |
| StudyReports.ReportsKeepAccount | src/causal/inference-ledger.ts:517-559 | any sequence of reports keeps the chain, the novelty marks, one act rate and truthful evidence digests |
| StudyReports.BudgetOverReports | src/causal/inference-ledger.ts:276-338 | over any reports the acts in the budget are the distinct interval-reporting keys, or colliding evidence is exhibited |
| StudyReports.CoveredClaimIsPaidFor | src/causal/inference-ledger.ts:373-400 | however acts were recorded, a claim covered by its plan has spent at most the target, up to the tolerance, if every budgeted act meets the plan's share |
| StudyReports.StandingClaimIsPaidFor | src/causal/inference-ledger.ts:490-508 | through the reporting function, a standing claim has spent at most its plan's target if the plan covers it, and otherwise at most one registered look's error |
| StudyReports.RatesArePaidForExactly | src/causal/inference-ledger.ts:373-400 | for every plan and rate bound, all looks recorded within the bound leave a covered ledger within the target if and only if the bound is at most the plan's share of one act, or the plan names no slice |
| StudyReports.DearLookEscapes | src/causal/inference-ledger.ts:276-400 | for every plan and every rate above its share, one look at that rate is covered, verifies, stands and spends more than the target |
| StudyReports.OnceWithheldAlwaysWithheld | src/causal/inference-ledger.ts:490-559 | a supported claim withheld for its looks is withheld at every later look |
| StudyReports.FirstLookStands | src/causal/inference-ledger.ts:501-503 | the first look on an empty ledger is never withheld |
| StudyReports.EveryReportIsALook | src/causal/inference-ledger.ts:301-317 | the look count rises by exactly one per accepted report |
| ReportMeaning.KeyTellsQuestion | src/causal/inference-ledger.ts:266-268 | two acts share a key if and only if estimand, endpoint, slice and evidence digest all agree |
| ReportMeaning.LookSays | src/causal/inference-ledger.ts:276-334 | a look adds one act for each request, in order and linked, marked as new exactly if no act before it asked the same |
| ReportMeaning.ReportSays | src/causal/inference-ledger.ts:517-560 | a report on a blank slice leaves the ledger as it is; any other records one look with a request for each endpoint of the family |
| ReportMeaning.NewLookSpends | src/causal/inference-ledger.ts:266-338 | a report on qualified evidence that is new to its estimand and slice spends exactly as many acts as the family has endpoints |
| ReportMeaning.StandsExactly | src/causal/inference-ledger.ts:490-515 | a claim stands if and only if the chain verifies, and the plan bounds what was recorded or no more acts spent error than the family has endpoints |
| ReportMeaning.SecondLookIsWithheld | src/causal/inference-ledger.ts:490-515 | without a plan that covers it, a second look at new qualified evidence withholds the claim |
| Holdings.TallyMeans | src/alloc/exact.ts:600-607 | the running sums hold, per currency and basis, exactly the sum of amounts and the union of sources added |
| Shares.PartsConserve | src/alloc/exact.ts:570-584 | a split that is not refused adds up to exactly the whole |
| Shares.SplitByWeights | src/alloc/exact.ts:570-584 | refuses precisely when some positive weight has no exact share; otherwise maps each positive weight's centre, and no other, to its share |
| AllocationRules.RulesLead | src/alloc/rules.ts:217-238 | whatever order rules come in, a row goes to one of least priority, and then of first name, among those that take it |
| AllocationRules.SuppliedFirstIsChosen | src/alloc/rules.ts:235-238 | of the rules that tie for the lead, the one supplied first takes the row |
| AllocationRules.RuleOrderMattersExactly | src/alloc/rules.ts:235-238 | a row goes to one rule in whatever order the rules are supplied if and only if no two different rules tie for its lead |
| AllocationGroups.GroupConserves | src/alloc/exact.ts:645-662 | per currency and basis the groups hold exactly the rows' amounts and source events |
| AllocationConserves.ClaimIsWhole | src/alloc/rules.ts:174-193 | the ratios of an accepted direct or fixed-split rule add up to the whole |
| AllocationConserves.EachGroupOnce | src/alloc/exact.ts:671-744 | each group's amount goes to its lines or to its one unplaced entry, counted once despite two passes over pools |
| AllocationConserves.NothingLostOrInvented | src/alloc/exact.ts:618-777 | for every currency and basis, lines and unplaced entries amount to exactly what the rows do |
| AllocationLineage.LineFrom | src/alloc/exact.ts:671-725 | every line shares out one claimed group, or one pool that had a driver |
| AllocationLineage.UnplacedComesFrom | src/alloc/exact.ts:727-744 | every unplaced entry is one whole group that no line shares out |
| AllocationLineage.ArchivedCentresReceiveNothing | src/alloc/exact.ts:654 | no archived cost centre receives a line, not even through a proportional pool |
| AllocationLineage.LineageIsKept | src/alloc/exact.ts:645-744 | per identity, the events behind lines and unplaced entries are exactly the events of the rows |
| AllocationLineage.EventHasOnePlace | src/alloc/exact.ts:645-662 | an event is held by the place its row is routed to and by no other |
| AllocationLineage.AllocatedOrUnplaced | src/alloc/exact.ts:664-744 | no event is behind both a line and an unplaced entry |
| AllocationRun.CanonicalRows | src/alloc/exact.ts:521-554 | accepts precisely the rows that are in the period, named, sourced and share no event, and returns them with trimmed names |
| AllocationEngine.RouteRows | src/alloc/exact.ts:638-662 | the mutable maps end as the specified sums and groups |
| AllocationEngine.SplitClaim | src/alloc/exact.ts:671-695 | appends one line per target and keeps sums and drivers in step, or refuses |
| AllocationEngine.ClaimPass | src/alloc/exact.ts:671-695 | yields all claimed lines, their sums and the drivers they build, refusing precisely when some group has an endless share |
| AllocationEngine.SplitPool | src/alloc/exact.ts:705-724 | appends one line per driver with its exact share and keeps sums in step, or refuses |
| AllocationEngine.PoolPass | src/alloc/exact.ts:697-725 | yields all lines, and the unallocated sums of precisely the pools without drivers |
| AllocationEngine.PoolAlreadyCounted | src/alloc/exact.ts:736-744 | at the second visit a pool without drivers is always found already counted |
| AllocationEngine.ListUndriven | src/alloc/exact.ts:736-744 | lists every such pool and leaves the sums unchanged |
| AllocationEngine.AppendUnallocated | src/alloc/exact.ts:727-735 | lists one kind of group with its reason and adds it to the sums |
| AllocationEngine.Conserves | src/alloc/exact.ts:749-759 | the final loop answers whether total equals placed plus unplaced for every identity that occurs |
| AllocationEngine.AlwaysConserves | src/alloc/exact.ts:749-759 | that check never fails on a run that was not refused |
| AllocationEngine.ApplyExactAllocation | src/alloc/exact.ts:618-777 | refused precisely for malformed input or an endless share; otherwise the result is the specified one |
| AllocationValidation.ValidateExactAllocation | src/alloc/exact.ts:357-421 | accepts precisely the results whose entries and top projects are well formed and whose recomputed sums and lineages agree for every identity |
| AllocationValidation.KeysSuffice | src/alloc/exact.ts:401-417 | checking the identities that occur anywhere checks them all |
| AllocationAccepted.EveryResultIsAccepted | src/alloc/exact.ts:357-421 | the independent validator accepts every result of a run |
| AllocationAccepted.AcceptedInputsGiveAcceptedResults | src/alloc/exact.ts:618-777 | from inputs that are not refused, whatever a run returns the validator accepts |
| AllocationInputs.InputsOkExactly | src/alloc/exact.ts:618-637 | told field by field: a run accepts its inputs if and only if rows, rules and targets meet every check, no event is named at two places, and every target is a known centre |
| AllocationInputs.KeptRowsSay | src/alloc/exact.ts:521-554 | a row is kept as it is but for the white space around its names |
| AllocationInputs.PolicyIsOrdered | src/alloc/rules.ts:217-238 | rules are tried by priority, then by name, and as they were supplied where neither tells two apart |
| AllocationInputs.ValidExactly | src/alloc/exact.ts:357-421 | told field by field: the validator accepts exactly the results whose entries are well formed, whose buckets hold what lines and entries add up to and are of their events |
| AllocationMeaning.SentToItsPlace | src/alloc/exact.ts:652-660 | a row goes where the first rule that covers it sends it: a claimed group, a pool, a closed group, or none |
| AllocationMeaning.GroupHolds | src/alloc/exact.ts:645-662 | a group holds the sum of the rows sent to it, and under each project the sum of that project's rows |
| AllocationMeaning.ClaimedLineIsShare | src/alloc/exact.ts:671-695 | a claimed line is worth, per million, its target's parts of the rows its rule's group gathers |
| AllocationMeaning.EveryTargetIsListed | src/alloc/exact.ts:671-695 | and every target of a rule that gathers rows has such a line |
| AllocationMeaning.PooledLineIsShare | src/alloc/exact.ts:697-725 | a pooled line is to its pool what the positive claimed amounts of its centre are to those of all centres, in that currency and basis |
| AllocationMeaning.EveryDriverIsListed | src/alloc/exact.ts:697-725 | and every centre that claimed lines drive has such a line of every pool |
| AllocationMeaning.UnplacedAreLeftOver | src/alloc/exact.ts:727-744 | the unplaced entries are exactly the groups left over, each whole |
| AllocationListings.ResultIsListed | src/alloc/exact.ts:746-768 | the lists of a result hold exactly the lines, entries and buckets of its groups, in order of their keys, compared field by field |
| AllocationListings.TopProjectsLead | src/alloc/exact.ts:609-615 | at most five projects of a group are listed, the larger ones first, and none that is left out is larger |
| AllocationOrder.RowMayComeLast | src/alloc/exact.ts:645-662 | with no two rows in conflict, a row may be routed last instead of in the middle |
| AllocationOrder.GroupsForgetOrder | src/alloc/exact.ts:645-662 | with no two rows in conflict, permuted rows build the same groups |
| AllocationOrderLines.DriversForgetOrder | src/alloc/exact.ts:688-693 | the accumulated drivers do not depend on the order of the lines |
| AllocationOrderLines.LinesForgetOrder | src/alloc/exact.ts:671-725 | the same groups give the same lines, up to order, and the same drivers |
| ArrivalOrder.SortsAlikeExactly | src/alloc/exact.ts:746-747 | two orders of one listing are sorted alike if and only if elements that tie come in one order in both |
| ArrivalOrder.FewForgetOrder | src/alloc/exact.ts:609-615 | with no tie among elements that have fewer than n ahead of them, the first n of a sorted listing do not depend on arrival |
| ArrivalOrder.FewShowCloseTie | src/alloc/exact.ts:609-615 | with such a tie they do, when one or the other of the two comes first |
| AllocationTies.ClaimIsLed | src/alloc/exact.ts:657-695 | in every order of the rows, a claimed group's lines are those that one of its rows leads to |
| AllocationTies.LinesDistinct | src/alloc/exact.ts:671-725 | no line is listed twice |
| AllocationTies.PoolAsDriven | src/alloc/exact.ts:688-725 | two lines of a pool come in the order in which claimed lines first reach their centres |
| AllocationDeterminism.RefusedAlike | src/alloc/exact.ts:570-584 | with no two rows in conflict, permuted rows are refused alike |
| AllocationDeterminism.LinesSortAlike | src/alloc/exact.ts:746 | with no two rows in conflict and no tie that shows, the lines of permuted rows are listed alike |
| AllocationDeterminism.RowOrderDoesNotMatter | src/alloc/exact.ts:618-777 | with no two rows in conflict and no tie that shows, permuted rows give one result: lines, unplaced entries, buckets and top projects |
| AllocationConflicts.FirstRuleStays | src/alloc/exact.ts:657-660 | a group keeps the rule of the first row that reaches it |
| AllocationConflicts.LinesTellTargets | src/alloc/exact.ts:671-695 | equal lines of a claimed group come from rules of one method and the same targets |
| AllocationConflicts.ConflictMatters | src/alloc/exact.ts:645-662 | of two rows in conflict, listing one first or the other first gives different lines |
| AllocationConflicts.TyingIdentitiesFollowArrival | src/alloc/exact.ts:597 | in any rows, bringing either of two rows whose currencies and bases tie to the front gives different totals |
| AllocationOrderShows.ClaimsTieShows | src/alloc/exact.ts:671-746 | if two claimed lines tie, and two rows lead to them in opposite orders, some two orders of the rows give different results |
| AllocationOrderShows.PoolsTieShows | src/alloc/exact.ts:697-746 | if lines of two differently named pools tie, some two orders of the rows give different results |
| AllocationOrderShows.DriversTieShows | src/alloc/exact.ts:688-746 | if two lines of one pool tie, and two rows drive their centres in opposite orders, some two orders of the rows give different results |
| AllocationOrderShows.EntriesTieShows | src/alloc/exact.ts:727-747 | if two unplaced entries of one reason tie, some two orders of the rows give different results |
| AllocationOrderShows.ProjectsTieShows | src/alloc/exact.ts:609-615 | if two projects of an unplaced entry tie with fewer than five ahead of them, some two orders of the rows give different results |
| AllocationOrderShows.OrderMattersExactly | src/alloc/exact.ts:618-777 | for every collation, every order of the rows gives one result if and only if no two rows are in conflict and no tie shows which row came first |
| AllocationOrderShows.ConflictMattersExactly | src/alloc/exact.ts:618-777 | where the collation ties no names, every order gives one result if and only if no two rows are in conflict |
| Tables.SortIsStable | src/alloc/exact.ts:746-747 | of two elements that tie, the one listed first stays first |
| Assignment.Pick | src/causal/assignment.ts:66 | a draw picks a position at or below the current one |
| Assignment.ShuffledRearranges | src/causal/assignment.ts:62-73 | for every hash stream the shuffle is a permutation |
| Assignment.Shuffle | src/causal/assignment.ts:62-73 | the in-place exchange loop computes the specified shuffle and keeps the multiset |
| Assignment.EveryArrangementIsReached | src/causal/assignment.ts:62-73 | every rearrangement of a block is the shuffle of some hash stream |
| Assignment.TwoArmsEquallyOften | src/causal/assignment.ts:96-101 | before shuffling each arm occurs equally often |
| Assignment.ReplayRetainedPlan | src/causal/assignment.ts:91-132 | the replay loop builds the specified chain of decisions and the allocation identity of the shuffled arms |
| Assignment.VerifyBlockedAssignmentPlan | src/causal/assignment.ts:135-214 | accepts precisely the plans that meet the block contract and replay from their recorded material |
| Assignment.AcceptedPlanIsBalanced | src/causal/assignment.ts:135-214 | every accepted plan gives each arm exactly half the block, under one allocation identity, in one unbroken chain |
| AssignmentMeaning.ExchangesShuffle | src/causal/assignment.ts:62-73 | shuffling is one chain of exchanges, from the last position down, each with the position that its draw falls on among those left |
| AssignmentMeaning.AcceptedExactly | src/causal/assignment.ts:91-214 | told unit by unit: a block is accepted if and only if its arms are half and half before these exchanges, and each decision carries its unit, arm, time and digests and is linked to the one before |
| Qualification.DuplicateIds | src/causal/qualification.ts:68-76 | leaves no reason precisely when all ids are distinct |
| Qualification.IndexDecisions | src/causal/qualification.ts:114-132 | leaves no reason precisely when every decision passes; the index then lists the decisions in order |
| Qualification.CountAssigned | src/causal/qualification.ts:134-141 | counts each arm's decisions and reports precisely the unresolvable predecessors |
| Qualification.GroupBlocks | src/causal/qualification.ts:143-148 | groups the decisions by block, each block in order |
| Qualification.NeitherOverNorUnder | src/causal/qualification.ts:155-161 | no arm over half and no block short means exactly half in each arm, under one identity |
| Qualification.CheckBlocks | src/causal/qualification.ts:149-162 | leaves no reason precisely when no block is overfull or of two identities, and nothing incomplete besides precisely when every block is full and balanced |
| Qualification.BindExecutions | src/causal/qualification.ts:164-210 | leaves no reason precisely when every execution binds an indexed decision and passes its gates |
| Qualification.BindOutcomes | src/causal/qualification.ts:212-254 | leaves no reason precisely when every outcome binds an execution and is awaited or in bounds, and nothing pending besides precisely when all have matured |
| Qualification.CountCompleted | src/causal/qualification.ts:256-264 | pending precisely when something was, or some decision lacks execution or outcome; otherwise none is missing |
| Qualification.CheckSupport | src/causal/qualification.ts:266-268 | leaves no reason precisely when every arm has a decision |
| Qualification.CheckLimits | src/causal/qualification.ts:274-283 | reports precisely the arms over the missingness limit, and those below the sample floor |
| Qualification.CleanStudyIsSound | src/causal/qualification.ts:164-264 | in a study of clean decisions, passing the loops is the same as binding, observing and completing every decision |
| Qualification.RunGates | src/causal/qualification.ts:104-268 | leaves no reason precisely when nothing stands against the study, and nothing held back besides precisely when it is sound |
| Qualification.QualifyCausalStudy | src/causal/qualification.ts:99-286 | invalid, collecting, inconclusive and qualified, each if and only if its stated condition holds, with the reasons and counts the loops report; the missingness limit is never the reason; no decisions means invalid |
| QualificationMeaning.VerdictSays | src/causal/qualification.ts:99-286 | told by the records alone: state, included ids, the set of reasons, and per arm how many decisions count, are completed, are missing, and how many executions confirm adherence |
| QualificationMeaning.ExecutionOkExactly | src/causal/qualification.ts:171-207 | an execution passes if and only if it is chained to its decision, in time, under the plan of that decision's arm, and its costs are inside the bounds from accepted sources |
| QualificationMeaning.OutcomeOkExactly | src/causal/qualification.ts:220-253 | an outcome passes, or may still, if and only if it is chained to its execution, in time, and matured with values inside the bounds, or awaited |
| QualificationMeaning.BlamedExactly | src/causal/qualification.ts:104-268 | the reasons the loops collect are exactly what can be held against the study |
| QualificationMeaning.HeldUpExactly | src/causal/qualification.ts:149-273 | what keeps a study collecting is a block that lacks decisions, an awaited outcome, or a decision not yet carried out and observed |
| Qualification.EachDecisionObservedOnce | src/causal/qualification.ts:164-254 | in a qualified study every decision has exactly one execution and exactly one matured outcome, chained to it |
| Qualification.AcceptedPlanPassesBlockGate | src/causal/qualification.ts:149-162 | a block the assignment replay accepts passes the block gate |
| StudyUnits.AnyUnitsQualify | src/causal/qualification.ts:104-268 | of every qualified study and any well-shaped units, the study rebuilt with these units, its records hashed and linked anew, qualifies |
| StudyUnits.OneUnitQualifies | src/causal/qualification.ts:104-268 | so it is with a single unit, which is then assigned at least twice |
| StudyUnits.UnitsApartExactly | src/causal/assignment.ts:160-166 | of blocks that replay from their plans, every unit is assigned once if and only if no two plans share a unit |
| StudyUnits.WrittenIdsTellPlaces | src/causal/assignment.ts:115 | the ids a replay writes tell block and position apart, whatever the names contain |
| StudyUnits.PlansPassDecisionGates | src/causal/qualification.ts:110-162 | blocks that replay from their plans pass every gate on decisions whatever units the plans share, and each unit is assigned once if and only if they share none |
| Estimate.SplitByBlock | src/causal/estimate.ts:193-224 | each block's two arrays hold exactly that block's values of each arm, in order |
| Estimate.WeightedIsPooled | src/causal/estimate.ts:57-63 | with as many units of each arm in every block, the weighted contrast is the difference of the pooled means |
| Estimate.IntervalContainsEstimate | src/causal/estimate.ts:64-72 | the interval contains the estimate and stays within plus or minus the range |
| Estimate.CellsCoverArm | src/causal/estimate.ts:193-224 | summed over the blocks the cells of an arm are the whole arm |
| Estimate.CellsAreHalves | src/causal/estimate.ts:203-224 | in a qualified study each arm has half of every block |
| Estimate.EstimateIsDifferenceOfMeans | src/causal/estimate.ts:51-73 | with balanced blocks the estimate is the difference of the arms' plain means |
| Estimate.QualifiedEstimateIsDifferenceOfMeans | src/causal/estimate.ts:148-240 | so it is on every qualified study, whichever arm is the treatment |
| StudyEstimate.JointRuleSharesError | src/causal/estimate.ts:105-141 | whatever is declared, the endpoints share out exactly the registered error, and no declaration moves the margin |
| StudyEstimate.ReadingInRange | src/causal/estimate.ts:203-224 | in a qualified study every value that enters is a recorded one inside the declared range |
| StudyEstimate.IncludedAreAll | src/causal/estimate.ts:189-206 | the included ids, in whatever order they are listed, stand for exactly the decisions of the study |
| StudyEstimate.ReadingIsObserved | src/causal/estimate.ts:203-224 | what enters for a decision is the metric of the one execution and the one outcome that carried it out |
| StudyEstimate.JointIsResolved | src/causal/estimate.ts:105-141 | each endpoint is estimated at an equal part of the registered error, and the threshold counts only as declared for this question, its family and its margin |
| StudyEstimate.EffectOf | src/causal/estimate.ts:51-73 | the effect is the difference of the arms' plain means, treatment less control, and its interval reaches exactly the sum of the two arms' radii at that error to either side, cut off at the declared range |
| StudyEstimate.EstimateCausalStudy | src/causal/estimate.ts:148-280 | effects come back precisely for qualified studies of a known design, each as above, and the claim is exactly what their intervals, the threshold and the margin allow |
| StudyEstimate.ClaimAgreesWithMeans | src/causal/estimate.ts:238-279 | a supported claim agrees with the observed means: cheaper by more than the threshold and not worse than the margin, or of higher benefit |
| OffPolicy.ValidateInput | src/causal/ope.ts:194-306 | accepts precisely the logs that meet every gate |
| OffPolicy.UsedWeightWithinPolicy | src/causal/ope.ts:281-284 | no weight in use exceeds the policy's bound, clipped or not |
| OffPolicy.UsedWeightWithinOverlap | src/causal/ope.ts:278-280 | the overlap bound binds the weights in use without clipping above it, or if the policy's bound or the propensity floor already keeps weights below it |
| OffPolicy.OverlapCanBeExceeded | src/causal/ope.ts:278-284 | for all other parameters an accepted log clips nothing and uses a weight above the overlap bound |
| OffPolicy.OverlapBindsExactly | src/causal/ope.ts:278-284 | the bound holds of every weight of every accepted log with these parameters if and only if one of those four conditions does |
| OffPolicy.UsedWeightWithinReported | src/causal/ope.ts:331-337 | the reported maximum weight bounds every weight in use |
| OffPolicy.SumsOfWeights | src/causal/ope.ts:338-340 | sum of squares, squared sum and number of positive weights stand as Cauchy and Schwarz say |
| OffPolicy.EffectiveSampleSizeInRange | src/causal/ope.ts:359 | effective sample size is at least 1 and at most the number of supported observations |
| OffPolicy.SelfNormalizedInRewardBounds | src/causal/ope.ts:356-358 | the self-normalized estimate lies in the reward bounds |
| OffPolicy.DoublyRobustNearModel | src/causal/ope.ts:347-350 | the doubly robust estimate is within the largest used weight times the reward range of the mean prediction |
| OffPolicy.EvaluateOpe | src/causal/ope.ts:317-450 | refuses precisely the logs that are not accepted; otherwise returns the named totals, maxima, minima and estimate, and the exact range of the contributions |
| OffPolicy.EvaluationIsInRange | src/causal/ope.ts:356-434 | the ordinary and doubly robust estimates lie in the contribution range, the self-normalized one in the reward bounds |
| OffPolicyMeaning.AcceptedExactly | src/causal/ope.ts:194-306 | told by products of probabilities and bounds: a log is accepted if and only if every row may be used, ids differ and some action is supported |
| OffPolicyMeaning.EvaluationSays | src/causal/ope.ts:317-434 | told by the rows: each weight is the ratio or the clip, whichever is smaller; each addition a weighted reward or the corrected prediction; estimate, sample size, largest ratio, smallest propensity and counts are those of the rows |
| OffPolicyMeaning.EvaluationIsDetermined | src/causal/ope.ts:317-434 | a log has exactly one evaluation of which this holds |
| ContributionRange.NeverAboveExactly | src/causal/ope.ts:356-434 | of given weights and bounds, no rewards put the weighted average above every contribution if and only if the ceiling and floor comparisons hold |
| ContributionRange.MixedBoundsExactly | src/causal/ope.ts:356-434 | with bounds on both sides of zero, both comparisons at both ends hold if and only if the weights add up to their number, or one is zero and they add up to at least the number of positive ones |
| ContributionRange.OutsideExactly | src/causal/ope.ts:356-434 | the reported estimate is above, or below, the reported range exactly when the weighted average is above, or below, every contribution |
| ContributionRange.SelfNormalizedStaysInsideExactly | src/causal/ope.ts:356-434 | of a log of any length, the estimate stays in the reported range for all rewards within the bounds if and only if the weights keep it there |
| ContributionRange.SelfNormalizedMayLeaveContributionRange | src/causal/ope.ts:434 | of a one-row log, the estimate lies outside the reported range exactly when weighting changes the reward |
| Reconciliation.GroupRows | src/billing/reconcile.ts:424-457 | refuses with the first counted row's problem; otherwise holds each day's amounts and request counts |
| Reconciliation.CompareDays | src/billing/reconcile.ts:459-494 | every listed day is compared with both sides' sums and counted in exactly one kind |
| Reconciliation.ReconcileOpenAiCosts | src/billing/reconcile.ts:368-548 | refuses in the source's order of refusals, and otherwise returns the report of the snapshot and the counted rows |
| Reconciliation.ReportIsDetermined | src/billing/reconcile.ts:496-548 | a snapshot, counted rows and a truncation flag have exactly one report |
| Reconciliation.PruningSplitsTotals | src/billing/reconcile.ts:424-457 | what a prune takes from a total, a day's amount and a day's requests is what the deleted counted rows add up to |
| Reconciliation.PruningLowersTotals | src/billing/reconcile.ts:424-457 | pruning amounts that are not negative can only lower a total, on each day and altogether |
| Reconciliation.RefutationSurvivesPruning | src/billing/reconcile.ts:280-287 | unless the deleted counted rows add up to a credit, a report of the surviving rows that exceed the provider, in total or on a day, implies the same of the full ledger |
| Reconciliation.UpperBoundMeansUntouched | src/billing/reconcile.ts:396-397 | an upper bound is never reported when a counted row could have been deleted |
| Reconciliation.EarlyBoundaryChangesNothing | src/billing/reconcile.ts:392-397 | a boundary at or before the period start leaves the report of the full ledger with no prune on record |
| Reconciliation.TotalVerdictSurvivesExactly | src/billing/reconcile.ts:285 | for every provider snapshot the pruned verdict implies the full one if and only if the deleted counted rows add up to at least zero |
| Reconciliation.DayVerdictSurvivesExactly | src/billing/reconcile.ts:459-494 | likewise for a day that keeps a row, and the deleted counted rows of that day |
| Reconciliation.PruningLiftsExactly | src/billing/reconcile.ts:438-448 | pruning never causes a refusal, and lifts one exactly when every row that refuses the run is deleted |
| ReconciliationMeaning.DayFloor | src/billing/reconcile.ts:329 | a row counts for the one day that begins on a whole multiple of a day's length and holds its time |
| ReconciliationMeaning.ReportIsSaid | src/billing/reconcile.ts:424-548 | told by lines and rows: each listed day has the amounts and requests of exactly the rows in scope of that day, its kind, its materiality, and the report the sums and counts of them |
| ReconciliationMeaning.ConclusionSays | src/billing/reconcile.ts:368-548 | a run is refused early in the source's order, or by the first row in scope that cannot be compared, and otherwise reports as above |
| DecimalText.UsdRoundTrip | src/billing/types.ts:116-136 | reading what was printed is the identity on all safe integers |
| DecimalText.PrintedIsShortest | src/billing/types.ts:130-136 | no accepted text is shorter than the printed form of its amount |
| DecimalText.ExpansionIsExact | src/config.ts:113-132 | the expansion is a plain decimal denoting exactly mantissa times ten to the exponent |
| DecimalText.ApiDecimalExactly | src/billing/openaiCosts.ts:186-205 | the expansion is a plain decimal, and exact if and only if the amount is zero or the mantissa does not begin with a zero |
| BillingMapping.PrefixedIsInjective | src/billing/mapping.ts:165 | equal length-prefixed texts have equal fields, whatever the fields contain |
| BillingMapping.KeyIdentifiesRecord | src/billing/mapping.ts:158-167 | equal keys belong to equal records, or two texts with one digest are exhibited |
| BillingMapping.FirstIsNewest | src/billing/mapping.ts:227-249 | the first candidate after sorting has the highest version |
| BillingMapping.SelectionForgetsOrder | src/billing/mapping.ts:227-249 | the selected status and declaration do not depend on the order of declarations |
| BillingMapping.MappedMeansExact | src/billing/mapping.ts:227-249 | a mapped record has one newest declaration, made by then, that anchors it exactly |
| BillingMapping.SumSafe | src/billing/mapping.ts:206-215 | returns the sum precisely when every prefix of it is a safe integer |
| BillingMapping.EvaluateBillingMapping | src/billing/mapping.ts:257-357 | refuses precisely when a running total leaves the range; otherwise statuses, targets, total, mapped and residual are those of the items |
| BillingMapping.NothingIsLost | src/billing/mapping.ts:263-346 | the four statuses share out every record, and residual is unmapped plus stale plus ambiguous |
| BillingMapping.ItemsHaveTargets | src/billing/mapping.ts:277-285 | precisely the mapped records carry a target |
| BillingMapping.TargetsAddUp | src/billing/mapping.ts:263-346 | over targets, amounts and counts add up to exactly the mapped ones |
| BillingMapping.NoOrderIsRefused | src/billing/mapping.ts:206-215 | an evaluation succeeds in every order of its records if and only if positive and negative amounts each add up within the safe range |
| BillingMapping.RefusalDependsOnOrder | src/billing/mapping.ts:257-357 | three records are refused in one order and evaluated in another |
| MappingMeaning.KeyIsOfFields | src/billing/mapping.ts:158-167 | a key is the digest of the four fields in order, each behind its length and a colon |
| MappingMeaning.SelectedExactly | src/billing/mapping.ts:227-249 | the one newest declaration made by then maps a record if it anchors it exactly and is stale if not; with no single one the record is ambiguous, with none unmapped |
| MappingMeaning.EvaluatesExactly | src/billing/mapping.ts:257-357 | an evaluation is refused precisely when an amount, a running sum of a status, a target or the whole, or the residual is not a safe integer |
| MappingMeaning.CoverageSays | src/billing/mapping.ts:257-357 | told by positions: counts and amounts of each status and each target, the total, the mapped and the residual are those of the records |
| CapDecision.Replay | src/budget/capDecision.ts:247-258 | the loop adds up what the cap admits and blocks on the days with spend |
| CapDecision.NothingLost | src/budget/capDecision.ts:253-255 | admitted plus blocked is all spend |
| CapDecision.IntervalIsSound | src/budget/capDecision.ts:271-272 | every per-day split of a possible realized total falls inside the interval |
| CapDecision.IntervalIsTight | src/budget/capDecision.ts:271-272 | every value inside the interval is attained by a split that is constructed |
| CapDecision.UtilityIsExactImage | src/budget/capDecision.ts:278-281 | a utility lies in the interval if and only if some split attains it |
| CapDecision.SomeSplitExists | src/budget/capDecision.ts:303-306 | for every share, or none, the interval is not empty |
| CapDecision.EvaluationIsExact | src/budget/capDecision.ts:247-285 | told by the days: admitted is the smaller of spend and cap, day by day, and the intervals are exactly the amounts that can have been realized of it and what they are worth |
| CapDecision.ActiveHasSpend | src/budget/capDecision.ts:291 | the days that count are those with spend, each as often as it is listed |
| CapDecision.EvaluateBothCaps | src/budget/capDecision.ts:290-311 | refuses precisely the inputs the source refuses; otherwise both evaluations are exact for the active days |
| Reallocation.BudgetIsConserved | src/budget/allocate.ts:84-103 | for every tilt and floor the recommended changes add up to zero |
| Reallocation.UnscoredIsUntouched | src/budget/allocate.ts:88-93 | a cell without a return or without spend keeps its amount |
| Reallocation.GrowsAboveTheMean | src/budget/allocate.ts:90-93 | a cell grows only above the spend-weighted mean return, and is trimmed only below it |
| Reallocation.TrimmedReturnsLess | src/budget/allocate.ts:88-115 | every trimmed cell has a strictly lower return than every growing one, and both are scored |
| Reallocation.NothingIsZeroed | src/budget/allocate.ts:67-71 | with a positive floor every scored cell keeps a positive amount |
| ReallocationMoves.RankedHold | src/budget/allocate.ts:108-115 | the sorted lists hold, for each cell, exactly what it gives up or takes on above the cut-off |
| ReallocationMoves.NextKeepsRunning | src/budget/allocate.ts:120-139 | each step finishes a part at least, moves equal amounts out and in, and keeps the balance of the two lists |
| ReallocationMoves.PairOne | src/budget/allocate.ts:120-139 | one pass takes and gives the same amount, tells it if it is worth it, and goes on in at least one list |
| ReallocationMoves.PairParts | src/budget/allocate.ts:117-139 | the loop stops with one list used up, having told exactly the transfers worth telling |
| ReallocationMoves.PlanIsReached | src/budget/allocate.ts:120-139 | all transfers turn the current split into the recommended one up to the cut-off per cell, and leave cells within it alone |
| ReallocationMoves.GainIsWorthAdded | src/budget/allocate.ts:125-141 | the projected gain is what applying the moves adds to the value at current rates |
| ReallocationMoves.MovesLeadUpward | src/budget/allocate.ts:120-139 | every move leads from a scored cell to one of strictly higher, positive return |
| ReallocationMoves.GainSignExactly | src/budget/allocate.ts:125-131 | a transfer has a negative gain exactly when the rate where it leads is lower than where it comes from |
| ReallocationMoves.NoMoveLoses | src/budget/allocate.ts:120-141 | if no scored cell of a higher, positive return has a lower rate, no move and no plan has a negative gain |
| ReallocationMoves.TwoCellsLoseExactly | src/budget/allocate.ts:120-141 | of two cells, the first trimmed by more than what is left untold, the plan loses exactly when the growing cell has the lower rate |
| ReallocationMoves.LosingPlan | src/budget/allocate.ts:120-141 | two cells for which every plan that delivers projects a loss |
| ReallocationGains.NoPlanLosesExactly | src/budget/allocate.ts:76-141 | of given returns and rates, no spends, floor and tilt give a plan that projects a loss if and only if no profile of a higher, positive return realizes less than one of a lower return |
| ReallocationMoves.RecommendAllocation | src/budget/allocate.ts:76-152 | at most as many transfers as cells; each is the one that comes next; the moves keep the total, end near the recommendation and gain what is projected |
| ReallocationMoves.NextFollows | src/budget/allocate.ts:120-139 | each step joins the first trim and the first growth of which enough is left, by the smaller of the two |
| ReallocationMeaning.ItemsRecommend | src/budget/allocate.ts:84-103 | each scored cell goes the clamped tilt of the way to its part of the scored spend, by spend times floored return; every other one keeps what it has |
| ReallocationMeaning.TransfersPaired | src/budget/allocate.ts:108-139 | transfers lead from the item to be trimmed furthest to the one to grow furthest of which enough is left, ties by position, until one side is used up |
| ReallocationMeaning.RecommendationSays | src/budget/allocate.ts:76-152 | the moves tell exactly the transfers above half a cent, with the keys and rates of their cells, and the projected gain is their sum |

## Left out

Not modelled:

- Command lines, guides, alerts, backup, HTTP pulls, SQLite, file reading and the durability of single writes (a torn audit line, `fsync`).
- `src/budget/guard.ts`, `src/budget/recommend.ts`, `src/capital.ts` and `src/alerts/detect.ts`: not modelled, threshold branches and plain sums.
- The decision engine, regret rule, assurance gate and countermodels: certificate, standing, assurance and preference are arbitrary inputs of a controller tick, and the cap decision stops at its intervals.
- Most shape checks of records, identifiers, digests and timestamps: a record carries one flag for them. The shape of units and links and the digest each study record carries of itself are modelled.
- The contents of the policy digest and the digest of the pending record; the pending record is read back as it was written.
- Bounds that are only a matter of size: the 16384-digit limit of coefficients, and safe-integer limits of controller revisions and reconciliation sums. They are kept where a property is about them: decimal text, mapping sums and the money scale.
- Unknown-field checks, and the reading of decimal ratios: ratios are whole parts per million.
- `withUnresolvedRequests`, completeness, `excludedFrom` and the serialized form of an allocation result.
- Validation of an inference plan, and the refusal to report on a ledger bound to another protocol: single checks before anything is recorded.
- The design and estimand registries: whether the design is known is an input. The one loop of the estimator that fills six arrays fills two at a time here.
- The comparison of a snapshot with an earlier one (`src/billing/reconcile.ts:496-509`), and the provenance texts, limitations and assumptions of all reports.
- Sampling beyond the hash stream: the draws of a shuffle are given, and are those of doubles for blocks below 2^21.
- `ln` and `sqrt`: the half-width of an interval is an arbitrary function that is not negative.
- Percentages of the budget, quantiles and display text in off-policy and reallocation reports.

Modelling choices that leave something open:

- The lock files are a state machine over the atomic effects of the file system, with no manual removal; a failed write may have reached the file, and an unlink may fail. The `released` flag of a handle is the position of its process, so a handle shared by two owners is not captured.
- Operator edits happen while no controller process holds the locks, as every writer of the product takes them.
- The journal model and the lock model meet at a crash. In the source a crashed controller leaves both lock files, and nothing goes on until an operator removes them: that is where `ConfigLock.StaleLockFreezes` ends, and the `Crash` of `ControlJournal` stands for the crash together with that removal, so that a recovery, an edit or a tick may follow it.
- Controller runs are under one policy; switching policy ids is not part of a run, and transaction ids are fresh as random UUIDs are.
- Source-event lists are sets, so the order in which ids are listed is not captured; names are compared through an arbitrary position function in place of `localeCompare`.
- Maps are values in local variables of the methods that fill them, so aliasing between the engine's map entries is not captured. The same holds for the `amt` fields of the transfer loop.
- Exponents of printed numbers are integers, not text.
- Binary rounding: error rates, propensities, weights, rewards, daily spends and cell costs are real numbers.

Contracts weaker than one might expect:

- AllocationOrderShows.OrderMattersExactly: is about the result a run is specified to build; a refused run returns none. Without conflicts permuted rows are refused alike (`AllocationDeterminism.RefusedAlike`).
- StudyReports.StandingClaimIsPaidFor: is about ledgers kept through the reporting function, because it is false of acts recorded directly at different rates; `CoveredClaimIsPaidFor` is about those.
- ControlJournal.RolledBackIsTerminal: starts from a rollback that has its audit event, because before that it can be undone.
- QualificationMeaning.VerdictSays: compares the reasons of a verdict as sets, without their order and wording.
- ReallocationMoves.PlanIsReached: bounds the distance by the cut-off times the number of cells, because parts within the cut-off are dropped on either side.
