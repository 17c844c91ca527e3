# Forge evidence ledger: a verified model

Forge keeps an append-only, hash-linked ledger of evidence records beside one immutable file per record. A journaled
transaction store publishes each record and its ledger line together and recovers from a stop at any step. On top, a
lifecycle state machine projects the whole history and gates the next append: epochs, candidates, evidence, selection,
freeze, evaluation. Verifier runs and a recovery pass share the ledger under per-action locks.

The project models these parts in Dafny and proves what they are for, over all inputs, all runs and all interleavings:

- `Records`, `HashChain`, `LedgerIndex`, `StoreSpec`, `RecordStore`: records and their file names, the hash chain and the
  ledger reader with its two caches, the derived index, and the transaction store. Every write to the state directory is
  one step; the store keeps the disk after each step in `trace`, and `Crash` continues from any of them. The relation
  `StandsFor` says which ledger a disk stands for, pending transaction included; `Outcome` is what a commit means on that
  ledger.
- `Readiness`, `Lifecycle`, `LegalHistory`, `Gates`: both evidence-readiness forms, the projections, the transition gates
  (the path without a native kernel), what a legal history looks like, and what it implies.
- `Runs`, `Services`: the application services as authorise-then-commit steps, first on the logical store with arbitrary
  observations at every step, then as methods over the real store.
- `Meaning`, `RunMeaning`: what projections, gates and operations say in terms of the records a history holds and the
  fields they carry, with the answers given when a gate stays shut.
- `VerifierProtocol`, `ProtocolMeaning`, `Recovery`: verifier runs, deaths and recovery passes of any number of processes
  as interleaved steps, where the results come from, and the recovery pass as it runs on the store.
- `Migration`, `Parsing`, `JsonText`: record codecs, legacy migration, and what parsing accepts, refuses and keeps.
- `Capture`, `CompilerCandidates`, `TreeIdentity`, `TreeContents`: bounded stream capture, compiler-candidate promotion,
  the length-delimited tree encoding, and what it covers.

Conventions. SHA-256 and the canonical JSON form are free constructors (so injective, and never the genesis value), except
in `Migration`, where the hash is an arbitrary function and injectivity is asked for only where it is needed (`JsonText`
shows that it can be had). Clock readings, random identities, encoded sizes, schema versions, the working tree, authority
and policy observations, and everything a provider does are parameters, free at every call. `rest` fields stand for all fields a part does not read.
A ghost argument `v` is the ledger a disk is claimed to stand for; the contracts hold for disks that stand for none as well
where they say something unconditional.

Three properties are not true of the code as one would first state them; each has its exact condition:

- A verifier action can be ended twice when two runs share an action identity, because a run authorises its result against
  a snapshot taken before it holds the lock (`RepeatedIdentityDoubles`). The harm is done exactly by blind grants: a lock
  granted on a recorded action whose result is on the ledger and not in the snapshot (`TimelyIffNeverDoubles`). Distinct
  identities rule them out (`DistinctTimely`).
- Migrating a legacy record is a fixed point exactly under `Survives` and `NestsDeeper` (`LegacyFixedPoint`): besides an
  empty `extensions` object, an explicit null and already preserved fields in an unversioned record break it.
- The two readiness forms disagree on "not comparable" exactly where a stale record hides an unclear one
  (`FoldHidesUnclear`).

## Model

| member | source | states |
|---|---|---|
| HashChain.VerifyLoop | src/mncs_forge/ledger.py:245-269 | the loop accepts exactly the linked ledgers, returns their head, and otherwise names the first bad entry and its fault |
| HashChain.VerdictUnique | src/mncs_forge/ledger.py:254-264 | a ledger has exactly one verification outcome, so any other way of verifying that meets the contract agrees with the loop |
| HashChain.LinkedExtends | src/mncs_forge/ledger.py:212-243 | appending the entry built for a verified ledger gives a verified ledger |
| HashChain.LinkedPrefix | src/mncs_forge/ledger.py:254-264 | every prefix of an accepted ledger is accepted |
| HashChain.HeadDetermines | src/mncs_forge/ledger.py:212-269 | two accepted ledgers with the same head hash are the same ledger |
| HashChain.Ledger.ReadRaw | src/mncs_forge/ledger.py:49-78 | a cached read returns exactly what parsing the bytes now on disk returns, errors included |
| HashChain.Ledger.VerifyRaw | src/mncs_forge/ledger.py:245-269 | the fast path, which tests list identity, gives the outcome the full loop gives on that list |
| HashChain.Ledger.ReadVerified | src/mncs_forge/ledger.py:271-281 | after any earlier reads, verifications and foreign changes, the answer is that of an uncached reader of the bytes now on disk |
| HashChain.Ledger.VerifyChain | src/mncs_forge/ledger.py:100-110 | refused while a transaction is unresolved; otherwise succeeds exactly on linked ledgers and reports their length and head |
| LedgerIndex.BuildIndex | src/mncs_forge/record_store.py:466-488 | the index holds, per kind, the sequence numbers and, per identity, the last sequence number |
| LedgerIndex.IndexNamesPositions | src/mncs_forge/record_store.py:466-488 | for a linked ledger the index lists under a kind exactly the positions of that kind |
| LedgerIndex.IndexNamesIdentities | src/mncs_forge/record_store.py:466-488 | and under an identity its last position |
| LedgerIndex.Select | src/mncs_forge/ledger.py:296-332 | for any index content at all the answer is an ordered, duplicate-free selection of the wanted kinds; with no index, one of another schema, digest, head or count, one with a list that is none or an item that is no entry of its kind, or one Forge wrote, it is the plain filter |
| LedgerIndex.FilterIsPick | src/mncs_forge/ledger.py:327-332 | the plain filter is the ascending selection of the matching sequence numbers |
| StoreSpec.SettledLinked | src/mncs_forge/record_store.py:198-202 | every ledger grown by commits passes chain verification |
| StoreSpec.SettledFiled | src/mncs_forge/ledger.py:128-167 | every entry of a committed ledger has its file, holding its payload |
| StoreSpec.SettledDistinct | src/mncs_forge/records.py:620-635 | no two entries of a committed ledger share a file, so identities that collapse to one safe name are never both committed |
| Records.SafeNameCollides | src/mncs_forge/records.py:627-635 | different identities can collapse to one safe name, so the previous row is not vacuous |
| Records.SafeNameKeeps | src/mncs_forge/records.py:627-635 | a safe name has the length of its identity and holds only letters, digits, dot, underscore and dash, listed as a literal string; an identity made of those is its own safe name, and every other character becomes an underscore |
| Records.KindTellsType | src/mncs_forge/records.py:535-624 | two records of one kind are of one type, so no two types share a directory |
| StoreSpec.StandsForUnique | src/mncs_forge/record_store.py:374-435 | a disk stands for at most one ledger |
| StoreSpec.ExistingIsFiled | src/mncs_forge/record_store.py:179-196 | on a committed store, looking a record up by ledger identity and by file agree |
| StoreSpec.OutcomeSettled | src/mncs_forge/record_store.py:159-252 | a commit keeps the store settled and extends the ledger by at most one entry |
| StoreSpec.OutcomeOnUsedPath | src/mncs_forge/record_store.py:254-275 | committing what is there returns its entry; other content under a used identity, or a second identity on a used file, is refused; nothing changes in any of these |
| StoreSpec.OutcomeHoldsOnce | src/mncs_forge/record_store.py:159-252 | a successful commit leaves exactly one entry for its record |
| StoreSpec.PortableCommits | src/mncs_forge/record_store.py:159-204 | a request with nothing wrong in it, under a portable identity no entry of its kind bears, is appended with the next sequence number, its clock reading, its kind and the head hash, whatever else the ledger holds |
| StoreSpec.DefectsRefused | src/mncs_forge/record_store.py:159-177 | each defect is refused with its own error, in order, and changes nothing |
| StoreSpec.LongLineRefused | src/mncs_forge/record_store.py:202-203 | a ledger line over 16 000 000 bytes is refused |
| RecordStore.SettledVerifies | src/mncs_forge/ledger.py:112-167 | with nothing pending, any disk the store left behind passes verification, and entries and record files are in one-to-one correspondence: a file exists exactly where an entry is filed, and no two entries share one |
| RecordStore.LocalRecordStore.Commit | src/mncs_forge/record_store.py:159-252 | answer and ledger are those of the logical commit; every step's disk stands for the old ledger before the journal is written and for the new one from that step on; on any disk with nothing pending a broken ledger is refused untouched, and success means the record was there already or was placed where nothing was, everything else unchanged |
| RecordStore.LocalRecordStore.Transact | src/mncs_forge/record_store.py:204-252 | the transaction proper: the ledger switches exactly at the step that puts the journal in place |
| RecordStore.LocalRecordStore.WriteStage | src/mncs_forge/record_store.py:96-112 | a stage file written in arbitrary partial contents never changes what the disk stands for |
| RecordStore.LocalRecordStore.RemoveTree | src/mncs_forge/record_store.py:457-464 | removing a transaction directory piece by piece, in any order, keeps what the disk stands for at every step |
| RecordStore.LocalRecordStore.RecoverTransaction | src/mncs_forge/record_store.py:374-435 | rolls a journaled transaction forward from wherever it stopped, every step standing for the same ledger; on any disk at all it succeeds exactly when journal, record and ledger bear each other out, and then leaves the very bytes the journal vouches for; substituted content and a third ledger state are named, and a failure loses nothing |
| RecordStore.LocalRecordStore.RecoverUnlocked | src/mncs_forge/record_store.py:306-320 | never fails on a disk the store produced, leaves no transaction, and reports one completed transaction exactly when a journal was there; on any disk it succeeds only past readable journals in their own directories |
| RecordStore.LocalRecordStore.Recover | src/mncs_forge/record_store.py:294-304 | total on reachable disks, keeps the ledger at every step; on a quiescent disk changes nothing |
| RecordStore.LocalRecordStore.Verify | src/mncs_forge/ledger.py:112-126 | succeeds exactly when nothing is pending, the chain is intact and every entry agrees with its file |
| RecordStore.LocalRecordStore.VerifyImmutable | src/mncs_forge/ledger.py:128-167 | accepts exactly when every entry's file exists and holds its payload |
| RecordStore.LocalRecordStore.Entries | src/mncs_forge/ledger.py:271-294 | refused while a transaction is pending; on any disk only an intact ledger is read; on reachable disks exactly the ledger, or its filter by kinds, whatever index is present |
| RecordStore.DuplicateCases | src/mncs_forge/record_store.py:183-196 | a path in use, by file or by ledger entry, is answered as the logical store answers it |
| RecordStore.CommitCrashCommit | src/mncs_forge/record_store.py:159-275 | commit, die anywhere, recover with further deaths, commit again: exactly one entry for the record, or, for a request that cannot succeed, no mark |
| RecordStore.LiveOnce | src/mncs_forge/record_store.py:226-320 | a commit cut short after step k and recovered any number of times, each recovery cut short too, stands for the new ledger exactly when the journal step was reached, else for the old one |
| RecordStore.CrashAtomicity | src/mncs_forge/record_store.py:226-435 | after the next completed recovery the directory holds exactly the old ledger and record files, or exactly those plus this entry and its file; the second if and only if the journal step was reached |
| RecordStore.Life | src/mncs_forge/record_store.py:159-320 | a whole life from an empty directory, with such deaths everywhere: each request takes effect or not, and the disk always stands for the resulting ledger |
| RecordStore.ChronicleGrows | src/mncs_forge/record_store.py:198-202 | in such a life every ledger is settled and every earlier one is a prefix of every later one |
| Readiness.CompatReadiness | src/mncs_forge/state_machine.py:530-676 | the loops compute the readiness function: which required checks are missing, failed, unknown, stale, not comparable; the rows below say what that means in record fields |
| Readiness.EvidenceMember | src/mncs_forge/state_machine.py:578-662 | a required check is on a list exactly when its records say so, authority drift included |
| Readiness.MissingIff | src/mncs_forge/state_machine.py:556-583 | a required check is missing exactly when the history holds no candidate-scoped workflow result and no development verifier result of that candidate and that name |
| Readiness.VerdictIff | src/mncs_forge/state_machine.py:585-589 | failed exactly with a FAIL record of the candidate for it, unknown exactly with an UNKNOWN one and no FAIL |
| Readiness.EvidenceIsolated | src/mncs_forge/state_machine.py:556-570 | appending a result of another candidate, of the project or of an evaluator, or any record that is no result and no epoch, leaves the whole readiness as it was |
| Readiness.OneFieldOff | src/mncs_forge/state_machine.py:590-640 | one record that differs from what is observed in one named field (declared freshness, candidate, input candidate, comparability, environment keys, environment, policy) makes the check stale or not comparable |
| Readiness.AllFieldsAgree | src/mncs_forge/state_machine.py:590-655 | and where all records agree in every field the check is neither |
| Readiness.AuthorityDrift | src/mncs_forge/state_machine.py:641-655 | an authority other than the one the epoch began under makes every check with a record not comparable |
| Readiness.NoCandidateNoEvidence | src/mncs_forge/state_machine.py:540-554 | without a candidate every required check is missing |
| Readiness.StatusIff | src/mncs_forge/state_machine.py:656-676 | the summary is FAIL exactly with a failed check and PASS exactly when ready; present are the required checks that are not missing |
| Readiness.BlockerOrder | src/mncs_forge/state_machine.py:70-99 | which blocker is reported, in order |
| Readiness.UnblockedFields | src/mncs_forge/state_machine.py:530-676 | no blocker means every required check has a record of that candidate, and every such record is PASS and agrees with what is observed in every field |
| Readiness.Normalise | src/mncs_forge/state_machine.py:384-453 | the host-side envelope of a requirement, with the folded freshness stated independently of record order |
| Readiness.FormsAgreeOnRequirement | src/mncs_forge/state_machine.py:384-662 | for a requirement with records both forms agree on stale, and on stale-or-not-comparable |
| Readiness.FormsAgreeOnReady | src/mncs_forge/mncs_native.py:2060-2068 | ready holds exactly when the policy is valid and every envelope is non-empty, all PASS, not stale, not noncomparable |
| Readiness.FoldHidesUnclear | src/mncs_forge/state_machine.py:404-415 | the forms differ on not-comparable exactly when a stale record hides an unclear one and nothing else is wrong |
| Readiness.FoldHidesSomething | src/mncs_forge/state_machine.py:404-415 | there is a history on which the two forms do differ that way |
| Readiness.FailureIsSticky | src/mncs_forge/state_machine.py:70-99 | a FAIL or UNKNOWN record of a required check blocks in every longer history |
| Readiness.NoBlockerMeans | src/mncs_forge/state_machine.py:578-662 | no blocker means every required check has a record and all are PASS, current and comparable under the epoch's authority |
| Lifecycle.EpochProjection | src/mncs_forge/state_machine.py:210-244 | the loop finds the last epoch, the superseded ones, and coherence exactly when parents form one unbranched line without repeats |
| Lifecycle.CandidateProjection | src/mncs_forge/state_machine.py:246-326 | current candidate, freshness, lineage and conflicts as the specification function gives them |
| Lifecycle.CheckLineage | src/mncs_forge/state_machine.py:276-301 | the loop accepts exactly coherent parent lines of the epoch |
| Lifecycle.WalkParents | src/mncs_forge/state_machine.py:308-326 | the cursor loop terminates and returns the root-first parent walk, flagging a return to a seen candidate |
| LegalHistory.LegalView | src/mncs_forge/state_machine.py:246-326 | on a legal history the projection finds no conflict, the newest candidate, and the lineage of registrations in order |
| LegalHistory.LegalTrail | src/mncs_forge/state_machine.py:275 | the candidates naming the active epoch are exactly those registered since it began |
| LegalHistory.LegalProjection | src/mncs_forge/state_machine.py:890-1012 | no observation makes a legal history ambiguous; disposition and freeze are the unique ones of the newest candidate |
| LegalHistory.RepeatIsAmbiguous | src/mncs_forge/state_machine.py:1126-1185 | a registration the gate lets through but whose identity repeats one of its lineage makes the history ambiguous, so the store's refusal is needed |
| Gates.EpochGate | src/mncs_forge/state_machine.py:1102-1124 | opens exactly in development mode for the active epoch as parent |
| Gates.RegisterGate | src/mncs_forge/state_machine.py:1126-1185 | opens exactly in development mode, under the epoch's authority, before a freeze, for the newest candidate as parent |
| Gates.WorkGate | src/mncs_forge/state_machine.py:1187-1200 | candidate-scoped work opens exactly for the newest, current, unfrozen candidate |
| Gates.DispositionGate | src/mncs_forge/state_machine.py:1219-1251 | opens exactly for the newest, current, undisposed candidate, selection only without an evidence blocker |
| Gates.FreezeGate | src/mncs_forge/state_machine.py:1253-1308 | opens exactly for the one PASS selection under the policy in force, with evidence complete for policy and plan, and yields that selection |
| Gates.EvaluatorGate | src/mncs_forge/state_machine.py:1317-1342 | opens exactly for the frozen newest candidate without drift (`Meaning.DriftIff` says what drift is, name by name); on legal histories its selection checks cannot fail |
| Gates.BundleGate | src/mncs_forge/state_machine.py:1354-1364 | opens exactly for the newest, current candidate, in evaluator mode only frozen and without drift |
| Gates.FilteredGatesAgree | src/mncs_forge/micro_verifiers.py:290-309 | gating a verifier on four record kinds decides exactly as the whole history would |
| Gates.StickySelect | src/mncs_forge/state_machine.py:1232-1235 | once a required check failed or is unknown, no longer history authorises selecting the candidate |
| Gates.StickyFreeze | src/mncs_forge/state_machine.py:1280-1300 | nor freezing it, whether the policy or the plan requires the check |
| Gates.SelectionMeans | src/mncs_forge/state_machine.py:1219-1251 | an authorised selection, on any history, rests on complete current PASS evidence and reports PASS |
| Gates.FreezeMeans | src/mncs_forge/state_machine.py:1253-1308 | an authorised freeze, on any history, rests on a PASS selection and complete evidence for policy and plan |
| Gates.FreezeFollowsSelection | src/mncs_forge/application/evaluation.py:53-92 | each freeze follows exactly one disposition of its candidate, a PASS selection it binds |
| Gates.EvaluationFollowsFreeze | src/mncs_forge/application/evaluation.py:94-127 | each final evaluation follows a freeze of the same candidate |
| Gates.RejectedNeverFrozen | src/mncs_forge/state_machine.py:1274-1275 | a rejected candidate is never frozen |
| Gates.QuietAfterFreeze | src/mncs_forge/state_machine.py:1148-1149 | after a freeze nothing is registered, disposed or frozen, no development verifier starts, no candidate check is recorded until a successor epoch |
| Meaning.NewestIff | src/mncs_forge/state_machine.py:275-303 | the newest candidate is the last one recorded, with no epoch begun since |
| Meaning.EpochsCoherentIff | src/mncs_forge/state_machine.py:210-244 | epochs cohere exactly when each names its predecessor, the first none, and no identity repeats |
| Meaning.SupersededIff | src/mncs_forge/state_machine.py:242-244 | the superseded epochs are all but the last, in order |
| Meaning.LineageCoherentIff | src/mncs_forge/state_machine.py:277-301 | a lineage coheres exactly when each candidate names its predecessor, the first none, none itself, and parents belong to the epoch |
| Meaning.StragglesIff | src/mncs_forge/state_machine.py:260-274 | a candidate straggles exactly when it names another epoch and was recorded after the active one began |
| Meaning.AmbiguousIff | src/mncs_forge/state_machine.py:953-968 | any history is ambiguous exactly when its epochs or lineage do not cohere, or its current candidate was disposed of or frozen twice; evidence never makes it so |
| Meaning.AmbiguousCode | src/mncs_forge/state_machine.py:1075-1078 | which code the gates then answer: the first limitation in the order of the projection, which can be the evidence one |
| Meaning.StageMeans | src/mncs_forge/state_machine.py:953-986 | each of the other stages of a legal history from the bundles, evaluations, freezes and dispositions it holds for its newest candidate, then from the evidence |
| Meaning.DriftIff | src/mncs_forge/state_machine.py:1310-1315 | drift is exactly an observed name the freeze does not bind, or binds to another value |
| Meaning.EvaluatorAgrees | src/mncs_forge/state_machine.py:1317-1342 | evaluator entry opens only on a freeze record of the observed candidate whose bindings hold every observed name with its value |
| Meaning.EvaluatorErrors | src/mncs_forge/state_machine.py:1317-1342 | what evaluator entry answers when it stays shut, one differing binding being FREEZE_DRIFT |
| Meaning.EpochErrors | src/mncs_forge/state_machine.py:1102-1124 | what beginning an epoch answers when it stays shut |
| Meaning.RegisterErrors | src/mncs_forge/state_machine.py:1126-1185 | what registering answers when it stays shut |
| Meaning.WorkErrors | src/mncs_forge/state_machine.py:1187-1200 | what development work answers when it stays shut, project-scoped work included |
| Meaning.DispositionErrors | src/mncs_forge/state_machine.py:1219-1251 | what a disposition answers when it stays shut, the blocker included |
| Meaning.FreezeErrors | src/mncs_forge/state_machine.py:1253-1279 | what a freeze answers before its evidence is looked at |
| Meaning.FreezeLateErrors | src/mncs_forge/state_machine.py:1280-1308 | and after: open evidence, a changed policy, a missing plan, in that order |
| Meaning.TerminalIff | src/mncs_forge/state_machine.py:1485-1521 | a result ends an action exactly when no result in the snapshot names it and candidate, freeze and mode are its own, with the error otherwise |
| Runs.StoreRefusesRepeat | src/mncs_forge/record_store.py:183-196 | committing an epoch or candidate under a used identity does not grow the history |
| Runs.StoredLawful | src/mncs_forge/record_store.py:159-252 | a record that passed its gate keeps the history lawful once the store has had its say |
| Runs.StepLawful | src/mncs_forge/application/candidates.py:32-254 | no operation, whatever it observes, leads from a lawful history to an unlawful one |
| Runs.ReachedLawful | src/mncs_forge/application/candidates.py:32-254 | every run of operations from the empty ledger reaches a lawful history |
| Runs.NeverAmbiguous | src/mncs_forge/state_machine.py:890-1012 | no run reaches an ambiguous history under any later observation, and the lineage is the active epoch's registrations in order |
| Runs.RunOrder | src/mncs_forge/state_machine.py:1187-1342 | the gate ordering for every position of every run |
| Runs.FreezeRestsOnEvidence | src/mncs_forge/application/evaluation.py:53-92 | a freeze that enters the history, on any history, rests on complete current PASS records for its plan and for the policy in force |
| Runs.SelectionRestsOnEvidence | src/mncs_forge/application/candidates.py:230-254 | a selection that enters the history rests on complete current PASS records for the policy in force |
| Runs.RunEvidence | src/mncs_forge/state_machine.py:1219-1308 | over whole runs, wherever a freeze or a selection entered the history those records were there |
| RunMeaning.SingleCommits | src/mncs_forge/application/candidates.py:32-73 | beginning an epoch, a note and a verifier result write exactly the record called for, or nothing |
| RunMeaning.BeginIff | src/mncs_forge/application/candidates.py:32-73 | beginning an epoch gets as far as the store exactly in development mode with the active epoch as parent |
| RunMeaning.RegisterIff | src/mncs_forge/application/candidates.py:74-117 | registering does exactly for the newest candidate as parent, under the epoch's authority, unfrozen, with valid files and the expected identity |
| RunMeaning.RegisterWrites | src/mncs_forge/application/candidates.py:74-117 | and writes the observed identity under the active epoch |
| RunMeaning.RefreshMeans | src/mncs_forge/application/candidates.py:119-173 | refreshing returns the candidate the tree still is, and otherwise registers its successor |
| RunMeaning.DisposeIff | src/mncs_forge/application/candidates.py:230-254 | a disposition gets as far as the store exactly for the newest, current, undisposed candidate, a selection only with rights held and nothing blocking |
| RunMeaning.DisposeWrites | src/mncs_forge/application/candidates.py:230-254 | and records the verdict asked for, the policy in force and the evidence status |
| RunMeaning.FreezeCandidateIff | src/mncs_forge/application/evaluation.py:35-92 | a freeze does exactly for the one PASS selection under the policy in force, with nothing blocking policy or plan |
| RunMeaning.FreezeWrites | src/mncs_forge/application/evaluation.py:53-92 | and binds that selection and the bindings given |
| RunMeaning.StartIff | src/mncs_forge/micro_verifiers.py:290-309 | a verifier starts exactly where its gate stands open: in evaluator mode only under bindings the freeze holds |
| RunMeaning.StartWrites | src/mncs_forge/micro_verifiers.py:342-396 | and its action carries mode, candidate and freeze |
| RunMeaning.BundleWrites | src/mncs_forge/application/evidence.py:367-398 | a bundle run writes its notes and one bundle for the newest candidate |
| RunMeaning.BundleIff | src/mncs_forge/application/evidence.py:367-398 | a bundle run gets as far as persisting exactly for the newest, current candidate, from an evaluator only where it is frozen and every observed binding holds |
| RunMeaning.FinishIff | src/mncs_forge/state_machine.py:1485-1521 | a verifier result gets as far as the store exactly when the snapshot shows none for its action and it carries the action's candidate, freeze and mode |
| RunMeaning.CheckMeans | src/mncs_forge/application/workflows.py:274-308 | a development run that succeeds left, for every workflow, a result with its status about the newest, current, unfrozen candidate, or about the project |
| RunMeaning.EvaluateMeans | src/mncs_forge/application/evaluation.py:94-127 | an evaluation that succeeds left every trial's result, nothing drifted, and the bindings seen after each trial were those of the one freeze |
| RunMeaning.PersistedLast | src/mncs_forge/application/execution_receipts.py:482-506 | a persisted execution ends with its result, after the action and receipt it rests on |
| RunMeaning.EvaluationRunWrites | src/mncs_forge/application/evaluation.py:94-127 | an evaluation writes nothing but the notes and results of its trials, for the frozen candidate |
| RunMeaning.EvaluationsAgree | src/mncs_forge/application/evaluation.py:94-127 | over every run, an evaluation entered the history only from evaluator mode, for the frozen newest candidate, where every observed binding was the one the freeze record holds |
| RunMeaning.NextTrialNeedsAgreement | src/mncs_forge/application/evaluation.py:100-127 | the loop goes past a trial only where the bindings then observed are still those of the freeze |
| RunMeaning.SelectionVouched | src/mncs_forge/application/candidates.py:230-254 | a selection that entered rests, for every required check, on records of that very candidate that are PASS and agree with what was observed in every field |
| RunMeaning.FreezeVouched | src/mncs_forge/application/evaluation.py:53-92 | so does a freeze, for the policy in force and for its plan |
| RunMeaning.RunPositions | src/mncs_forge/state_machine.py:1102-1364 | at every position of every run, what stood before the record that entered there: parent epoch, parent candidate, freeze, dispositions, and PASS behind every selection |
| RunMeaning.SelectThenFreeze | src/mncs_forge/application/evaluation.py:53-92 | after a selection, a freeze under the same observation with a proven plan is up to the store alone and binds that selection |
| RunMeaning.FreezeThenEvaluate | src/mncs_forge/state_machine.py:1317-1342 | after a freeze, evaluator entry opens exactly for bindings that agree with the ones given, and is FREEZE_DRIFT otherwise |
| Services.LookAt | src/mncs_forge/application/lifecycle.py:53-98 | the machine built over the real store is the projection of its history |
| Services.ReadStructural | src/mncs_forge/application/lifecycle.py:68-72 | the four kinds read through the index are the filtered history |
| Services.Save | src/mncs_forge/record_store.py:159-252 | saving through the real store is the logical commit: the record is appended or nothing is, and every disk step stands for a ledger between the two |
| Services.Persist | src/mncs_forge/application/execution_receipts.py:482-506 | the loop of commits stops at the first refusal, as the logical one does |
| Services.RunEvaluations | src/mncs_forge/application/evaluation.py:100-127 | the loop commits each result and re-checks drift and the freeze, stopping as the logical one does |
| Services.RunChecks | src/mncs_forge/application/workflows.py:275-308 | the development loop under one machine is the logical one |
| Services.Serve | src/mncs_forge/application/candidates.py:32-254 | every operation on the real store gives the answer and history of the logical one, and every disk step on the way stands for a ledger between the two |
| Services.ServeAll | src/mncs_forge/application/candidates.py:32-254 | any operations in any order on a real store that began empty leave it standing for the run's history, which is lawful |
| Services.ServeCutShort | src/mncs_forge/record_store.py:226-320 | an operation cut short after any disk step and recovered, recoveries cut short too, leaves a history between the old one and the one it would have left |
| Services.PrefixLawful | src/mncs_forge/state_machine.py:890-1012 | a lawful history was lawful at every earlier point |
| Services.ServeAllCutShort | src/mncs_forge/application/candidates.py:32-254 | a whole run with a death in every operation, anywhere, ends in a lawful history |
| VerifierProtocol.AtMostOnce | src/mncs_forge/micro_verifiers.py:396-465 | in every interleaving where no lock is granted blindly, no action gets two terminal results, and no two processes hold one lock |
| VerifierProtocol.DistinctTimely | src/mncs_forge/micro_verifiers.py:344-396 | distinct action identities rule blind grants out |
| VerifierProtocol.DistinctAtMostOnce | src/mncs_forge/state_machine.py:1485-1521 | with distinct action identities every action ends at most once, whatever runs, deaths and passes interleave |
| VerifierProtocol.BlindLockDoubles | src/mncs_forge/micro_verifiers.py:457-465 | a lock granted blindly, on a recorded action whose result is on the ledger but not in the run's snapshot, opens the way to a second result |
| VerifierProtocol.TimelyIffNeverDoubles | src/mncs_forge/micro_verifiers.py:344-465 | a run, and every way of letting its processes go on from any of its points without granting another lock, keeps every action at one result if and only if no lock is granted blindly |
| VerifierProtocol.RepeatedIdentityDoubles | src/mncs_forge/micro_verifiers.py:342-465 | for every action and any answer of its run, a second run under the same identity can end it again |
| VerifierProtocol.CompletePassEndsAll | src/mncs_forge/application/recovery.py:23-64 | a pass that completes without meeting a held lock leaves exactly one result for each action it listed |
| VerifierProtocol.ListsAllActions | src/mncs_forge/application/recovery.py:24 | a pass lists every action on the ledger at that moment |
| VerifierProtocol.RecoveredIsUnknown | src/mncs_forge/verifier_support.py:156-220 | whatever a pass adds is UNKNOWN and carries verifier, mode, candidate, freeze, input candidate, environment and policy of an action on the ledger |
| VerifierProtocol.ResultsAnswerActions | src/mncs_forge/state_machine.py:1485-1521 | in every run every result has a recorded action with its candidate, freeze and mode |
| ProtocolMeaning.ResultsExplained | src/mncs_forge/micro_verifiers.py:400-465 | in every run every result on the ledger carries the status and fields a session gave for that very action, or is UNKNOWN with the bindings of a recorded action |
| ProtocolMeaning.RunsRemember | src/mncs_forge/micro_verifiers.py:344-465 | in every run a verifier run holds the ledger as it was when it began, and is cleared to add its result only if that ledger showed none for its action |
| ProtocolMeaning.SessionOnce | src/mncs_forge/micro_verifiers.py:439-455 | in every run, once a session concluded for an action, a run whose session concludes for it again stops there and commits nothing |
| ProtocolMeaning.RunAlone | src/mncs_forge/micro_verifiers.py:396-465 | a run left alone whose action has no result records it and ends it with what its session gave |
| ProtocolMeaning.PassAlone | src/mncs_forge/application/recovery.py:23-64 | a pass left alone while no lock is held completes, meets nothing busy, and leaves a result for every action on the ledger |
| Recovery.EndOne | src/mncs_forge/application/recovery.py:35-60 | under the lock, while others commit before, between and after its read and its commit: refused as already terminated exactly when a result had appeared at the second read, otherwise ended unless the store, asked on the ledger it then left, refuses that very result |
| Recovery.EndStranded | src/mncs_forge/application/recovery.py:23-64 | the pass on a real store while others take locks and commit at any moment: completing, it leaves a result for every action whose lock was free; it adds nothing but recovered results, for actions that had none while the locks are respected; what stops it is the store refusing the recovered result of an action whose lock was free, or a result that appeared for such an action since the pass began; every disk step stands for a ledger between the two |
| Recovery.EndStrandedCutShort | src/mncs_forge/application/recovery.py:18-64 | a pass cut short after any disk step and recovered has added nothing but what others committed and recovered results |
| Recovery.RecoversOnce | src/mncs_forge/application/recovery.py:23-64 | while others add no results such a pass keeps at most one result per action |
| Migration.ThawFreeze | src/mncs_forge/records.py:894-907 | thawing a frozen JSON value gives it back |
| Migration.FreezeThaw | src/mncs_forge/records.py:894-907 | and freezing a thawed one |
| Migration.MigrateInPlace | src/mncs_forge/records.py:1559-1610 | the dictionary-popping migration computes the specification function, errors included |
| Migration.NewRecordReparses | src/mncs_forge/records.py:1494-1516 | every record `new_record` builds re-parses to itself, its identity included; what parsing refuses is stated below |
| Migration.LegacyFixedPoint | src/mncs_forge/records.py:1442-1610 | parsing the JSON of a migrated record gives that record exactly when the identity survives and unknown values have two levels to spare |
| Migration.LegacySurvives | src/mncs_forge/records.py:1522-1610 | the sufficient direction, for any hash |
| Migration.IdentitySurvives | src/mncs_forge/records.py:1442-1472 | under the condition the historical identity is reproduced, defaulted subject type and preserved fields included |
| Migration.IdentityLost | src/mncs_forge/records.py:1442-1472 | outside it an injective identity is not |
| Migration.PreservedFits | src/mncs_forge/records.py:910-933 | moved under `extensions`, the record is within the nesting limit exactly when every unknown value fits two levels further in |
| Migration.EmptyExtensionsBreak | src/mncs_forge/records.py:1595-1608 | an empty `extensions` beside an unknown field is always refused on the second parse |
| Parsing.CurrentIff | src/mncs_forge/records.py:1522-1556 | a record parses as current exactly when it nests within the limit, declares the expected type and version 1, has every required field and no unknown one, and its identity field holds the identity of its tags and visible fields; its content is kept as it is |
| Parsing.IdentityPins | src/mncs_forge/records.py:1550-1556 | with an injective identity two accepted current records of one type and one identity agree on every visible field |
| Parsing.TamperRefused | src/mncs_forge/records.py:1550-1556 | so a current record with one visible field changed, added or removed under the same identity is refused |
| Parsing.Routes | src/mncs_forge/records.py:1522-1556 | which reading each pair of tags leads to, and the error of each test |
| Parsing.CheckedIff | src/mncs_forge/records.py:1118-1134 | the field checks, with the errors for missing and unknown fields |
| Parsing.NewRecordMeans | src/mncs_forge/records.py:1494-1516 | a new record keeps the fields given and fills in the identity; spoofed metadata, over-nesting and a wrong identity are refused |
| Parsing.FitsIff | src/mncs_forge/records.py:910-933 | a value fits exactly when no path into it is longer than 64 levels |
| Parsing.LegacyIdentity | src/mncs_forge/records.py:1442-1586 | a legacy record is refused for its identity exactly when it does not hold its historical one, with the subject type or, where defaulted, without it |
| Parsing.LegacyPins | src/mncs_forge/records.py:1559-1586 | with an injective identity two accepted unversioned records of one identity agree on every visible field but the subject type |
| Parsing.LegacyKeeps | src/mncs_forge/records.py:1587-1610 | a migrated record keeps the known fields, holds exactly the unknown ones under the preservation key beside the extensions there were, and nothing else |
| Parsing.LegacyConflict | src/mncs_forge/records.py:1595-1607 | extensions that are no object, or hold that key already, are refused |
| JsonText.TextInjective | src/mncs_forge/serialization.py:46-47 | so identities that tell all field sets apart exist, and the rows asking for one are not vacuous |
| JsonText.EmptyExtensionsExample | src/mncs_forge/records.py:1595-1608 | under such an identity a record with an empty `extensions` migrates and is then refused, while one with a non-empty `extensions` reads back as itself |
| Capture.StreamCapture.Feed | src/mncs_forge/execution_observations.py:55-65 | the retained bytes stay the first limit bytes of everything fed, and completeness is lost exactly past the limit |
| Capture.StreamCapture.Snapshot | src/mncs_forge/execution_observations.py:74-94 | a total is claimed exactly for a complete unmarked stream, and then equals observed and retained |
| Capture.FeedAll | src/mncs_forge/execution_observations.py:46-94 | after any chunk sequence the retained bytes are the first min(limit, total) bytes |
| Capture.Drain | src/mncs_forge/execution.py:122-147 | the read loop returns both streams whole, or an overrun stream, or that the deadline came first; no buffer exceeds its cap by more than one read |
| Capture.RunBounded | src/mncs_forge/execution.py:61-162 | normal return, output limit, timeout, a command that cannot start, and invalid limits (timeout or caps), each with what it implies |
| Capture.Builder.Conclude | src/mncs_forge/execution_observations.py:190-204 | the first verdict stays; an aggregate total is reported exactly when both streams are complete |
| Capture.RunObserved | src/mncs_forge/execution_observations.py:190-300 | a run returns normally exactly when its limits are valid, the command starts and it drains in time within both caps; then exit code and both streams are returned whole and total, observed and retained agree, otherwise no total is claimed; a positive stderr cap bounds stderr, without one the output cap does |
| Capture.DrainsIff | src/mncs_forge/execution.py:122-147 | draining in time is exactly that both streams end with no deadline before the later end |
| CompilerCandidates.StaleNeverAccepted | src/mncs_forge/application/compiler_candidates.py:315-356 | stale or substituted validation never promotes, in any record whatever |
| CompilerCandidates.StandingIff | src/mncs_forge/application/compiler_candidates.py:315-356 | the decision on any record whatever, in its fields, validations older than the bound artifact included |
| CompilerCandidates.PromotionIffValidated | src/mncs_forge/application/compiler_candidates.py:117-245 | over every run a record is accepted exactly when it carries a current PASS validation of its own artifact and asks for one of the three kinds, rejected exactly when it carries a current FAIL validation of its own artifact, and otherwise unresolved |
| CompilerCandidates.RunSound | src/mncs_forge/application/compiler_candidates.py:35-188 | every record of every run is isolated, unique, and states the status its own validation gives it |
| CompilerCandidates.Service.Register | src/mncs_forge/application/compiler_candidates.py:35-80 | records exactly the content given, unvalidated and unresolved; refused exactly for a shared artifact; the same content is found again |
| CompilerCandidates.Service.AttachValidation | src/mncs_forge/application/compiler_candidates.py:117-169 | the successor differs only in status, validation and decision, all given; it is accepted exactly for a fresh PASS of one of the three kinds and rejected exactly for a fresh FAIL |
| CompilerCandidates.Service.AttachBenchmark | src/mncs_forge/application/compiler_candidates.py:171-187 | a benchmark changes nothing but the observation |
| CompilerCandidates.Service.Tournament | src/mncs_forge/application/compiler_candidates.py:189-221 | three lists, each the order-keeping part of the input with its decision; an unknown candidate fails the whole |
| CompilerCandidates.Service.Select | src/mncs_forge/application/compiler_candidates.py:223-245 | selectable under the explicit policy exactly when accepted, with the error otherwise |
| CompilerCandidates.WithPartitions | src/mncs_forge/application/compiler_candidates.py:189-221 | each candidate is on the list of its decision as often as given, and on no other |
| CompilerCandidates.WithOrdered | src/mncs_forge/application/compiler_candidates.py:189-221 | each list keeps the order of the input |
| CompilerCandidates.RankedIs | src/mncs_forge/application/compiler_candidates.py:189-191 | the candidates of a tournament are the records with the given identities in the order given, if all are known |
| CompilerCandidates.TournamentAccepts | src/mncs_forge/application/compiler_candidates.py:189-221 | of a run's candidates a tournament accepts exactly those with a current PASS validation of their own artifact and rejects exactly those with a current FAIL |
| TreeIdentity.ReadInventory | src/mncs_forge/identity.py:30-47 | the nested loops compute the inventory, the first failing path deciding the error; the `TreeContents` rows say what it holds |
| TreeIdentity.SortedForgets | src/mncs_forge/identity.py:49 | sorting rearranged inventories gives the same list |
| TreeIdentity.BigEndianRoundTrip | src/mncs_forge/identity.py:52-54 | eight big-endian bytes determine the length |
| TreeIdentity.DecodeInverts | src/mncs_forge/identity.py:48-56 | a decoder recovers the inventory from the stream fed to the hash |
| TreeIdentity.ContentIdentity | src/mncs_forge/identity.py:22-56 | the loops compute the preimage of the identity, errors included; `TreeContents.SameIdentityIff` says what it tells apart |
| TreeIdentity.PreimageDetermines | src/mncs_forge/identity.py:48-56 | equal streams come from equal sorted inventories |
| TreeIdentity.OrderIndependent | src/mncs_forge/identity.py:30-56 | the same paths in another order give the same identity, or fail as well |
| TreeContents.InventoryGives | src/mncs_forge/identity.py:30-47 | the inventory exists exactly for trees that can be read, and holds every item exactly as often as the tree gives it |
| TreeContents.EveryFileListed | src/mncs_forge/identity.py:35-47 | every readable path or child file is there with its name and identity, a missing path with the word MISSING |
| TreeContents.NothingElseListed | src/mncs_forge/identity.py:35-47 | and nothing else is |
| TreeContents.FirstFailure | src/mncs_forge/identity.py:31-47 | the first path that fails, and in a directory its first failing entry, decides the error |
| TreeContents.PreimageIff | src/mncs_forge/identity.py:22-56 | the stream exists exactly for a readable tree with lengths of at most eight bytes |
| TreeContents.SameIdentityIff | src/mncs_forge/identity.py:22-56 | two trees have one stream exactly when they give every name and identity equally often |
| TreeContents.FileChanged | src/mncs_forge/identity.py:38-40 | another content, another name or the disappearance of a file given as a path changes the stream |
| TreeContents.ChildChanged | src/mncs_forge/identity.py:41-47 | so does another content of any file below a given directory |
| TreeContents.MissingText | src/mncs_forge/identity.py:36 | the bytes of a missing path are those of the word |
| TreeContents.LinesAscend | src/mncs_forge/identity.py:48-55 | the stream is the lines of the inventory by name and then by identity |
| TreeContents.TextLeqIff | src/mncs_forge/identity.py:49 | the order is lexicographic |
| TreeContents.LineLayout | src/mncs_forge/identity.py:50-55 | a line is name and identity, each behind its length in eight bytes |
| TreeContents.BigEndianDigit | src/mncs_forge/identity.py:52-54 | with the most significant byte first |
| TreeContents.StreamJoins | src/mncs_forge/identity.py:49-55 | lines follow one another without separators |

## Left out

- `fsync`, directory synchronisation and platform differences: a replace is atomic and a crash keeps a prefix of the steps.
- JSON text, UTF-8 and the RFC 8785 form: values are compared, not their spelling. Names in `TreeIdentity` are the encoded bytes, whose order is the order of the names.
- `Ledger.append`, a ledger-only path outside the transactions: commit is the only writer.
- The native kernel and everything that depends on it; only the host-side normalisation is modelled.
- Temporary files an interrupted index write leaves beside the index, and the ledger size recorded in the index: nothing reads them.
- Readiness lists are sets, so their sorted order and the record identities listed with them are not modelled. A policy error counts as one whatever its text, the empty text included.
- Comparison and reconciliation gates, operation inspection and summaries: they append nothing.
- Rights and provenance, changed-file validation, provider and workflow execution: one free answer each.
- The per-type field checks of the record table: an arbitrary predicate in `Migration`; numbers that are not finite and object keys that are not text are not JSON values here, and fractional numbers are their text.
- The test for an existing receipt before a workflow execution is persisted: it only refuses more, before anything is written. For verifier runs it is modelled.
- Windows and Podman runners, provider response parsing, process termination: the read loop is the POSIX one.
- Entries whose payload is a legacy record: the store model commits current records only, and migration is modelled on its own.
- Compiler candidates are kept by content, so identities that collapse to one file name do not arise there; other store refusals are one free answer.
- Checking the command line itself before a bounded run: only its limits and whether it starts are modelled.
- JsonText.TextInjective: shows that an injective text form of field sets exists; the hash of the canonical form is not itself modelled there.
