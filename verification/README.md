# ClashPulse: a verified model of its crash-safe stores, switch decisions and service protocols

ClashPulse supervises a Mihomo proxy. It keeps downloaded rule and geodata files
("resources") and subscription profiles on disk, probes proxy nodes and decides when to
switch, and runs one service loop that everything else talks to. This project models the
parts of it in which a mistake is hard to see from one function:

* **Resources.** A resource set is staged, validated and promoted under stable file names
  behind a journal that moves from "promoting" to "accepted". The model is a disk whose every
  step may succeed, fail, take effect and still report an error, or be the point where the
  process dies (`Storage`). `Sound` says which disks a start-up can open, `Committed` what
  that start-up exposes (manifest, every stable file, and the old layout while it is in use).
  Every operation is proved to keep the disk sound, and only the accepted mark changes what
  is exposed. The disk counts the steps that failed, so that contracts say both what an
  operation leaves after one failed step and that it succeeds when none failed and nothing
  stands in its way. `ResourceSession` runs any number of plans against one registry.
* **Subscriptions.** Immutable profile/config pairs named by their hashes, a record that
  points to one of them, `active.json`, and a marker that ties an activation to a resource
  commit. `Intact` is what start-up checks when it reads the store, `Openable` whether it
  opens it once a resource commit is recovered, and `StoreSound` that it does for every commit.
* **Both together.** `Activation` and `ServiceRun` follow an activation over both stores and
  any number of interrupted start-ups: the old resources with the old subscription, or the
  new with the new.
* **Monitoring.** Medians and windows, the failover, lowest-latency and steady-stream
  decisions stated without their algorithms, bounded histories, stream targets, and the probe
  loop as a state machine.
* **Service protocols.** Replacing the running Mihomo with all its failure exits, the
  hand-off of prepared plans, the refresh scheduler, and the one-slot event channels.

Code that changes state step by step is a class or a method over the mutable `Disk`; the
functions and predicates beside it say what the steps mean. Digests are injective, commit
IDs and directory names are fresh, parsing and rendering are given values, and clocks,
networks and processes are parameters or nondeterministic outcomes. In `Lifecycle` the outcome of
every call is an input of the run.

Properties that turned out not to hold are kept as results, each with the exact condition:

* Undoing an accepted journal, which follows an input/output error in finalization, is not
  crash-safe (`UndoAfterAcceptance`, `UndoIsSafeIff`; two homes in `UndoIsNotSafe`). Even then
  old and new are never mixed (`Revoke`).
* A cleanup while an activation could not be undone may delete the pair that the next start-up
  needs (`CleanupIsSoundIff`), after which it refuses to open (`StrandedFallback`).
* A commit of resources alone can turn an accepted activation back: exactly when, says
  `CommitResources`; `MixedByRefresh` is the run.
* A failed metadata commit is not always undone at once: a journal whose own write took effect
  and reported an error stays until the next start-up (`WriteMetadata`).
* A crash between the two steps of `Add` leaves a directory that every start-up refuses.
* The steady-stream comparison is not an order (`CircleIff`, `TransitiveIff`). The order of the
  roster then decides, unless, exactly, one node still compares before all others
  (`RosterIsFreeIff`).
* Replacing Mihomo is not all or nothing when what runs does not stop (`TakeDown`, the run
  `LeftRunning`); an apply does not notice a mode that was not switched back (`ApplyCandidate`,
  the run `UnnoticedMode`); and withdrawing a settings change can leave the proxy on with no
  controller (`RevertChange`, the run `StrayProxy`).

## Model

| member | source | states |
|---|---|---|
| `ResourceManifest.CheckEntries` | resources/transaction.go:385-430 | the one-pass count over journal entries accepts exactly the lists that are entry-wise valid, free of repeated names and backups, and complete |
| `ResourceManifest.ValidateJournal` | resources/transaction.go:360-431 | decides exactly whether a journal is valid: both manifests, both kinds of journal |
| `ResourceImage.WriteKeepsTarget` | resources/transaction.go:256-271 | overwriting or removing a destination of the open journal does not change what undoing it leads to |
| `ResourceImage.FilesStep` | resources/transaction.go:256-271 | any change of destinations that the journal can still undo keeps the disk sound and its outcome |
| `ResourceImage.AcceptStep` | resources/transaction.go:492-497 | the accepted mark turns the exposed set into exactly the candidate over the files in place, and leaves the user's own files |
| `ResourceImage.PromotionKeepsForeign` | resources/transaction.go:206-271 | a complete promotion changed managed names only |
| `ResourceTransaction.RestoreFiles` | resources/transaction.go:442-467 | ends with exactly the files the journal undoes to; interrupted anywhere it has put back exactly a first part of the destinations and still leads there |
| `ResourceTransaction.RestoreTransaction` | resources/transaction.go:441-481 | from an open promotion every step keeps soundness and outcome; complete, it leaves the previous manifest and files and no journal; interrupted, it stands at a counted step (`UndoAt`) |
| `ResourceTransaction.ReadTransaction` | resources/transaction.go:325-358 | gives back only valid journals and refuses exactly the others, unless interrupted |
| `ResourceTransaction.RemoveTransaction` | resources/transaction.go:501-510 | keeps the outcome; success means the journal is gone |
| `ResourceTransaction.FinalizeTransaction` | resources/transaction.go:483-499 | changes the outcome only by the accepted mark; an error leaves the promotion open or already accepted |
| `AcceptedUndo.UndoneHolds` | resources/transaction.go:441-467 | in the middle of undoing an accepted journal the candidate is whole exactly if each destination put back so far gives up the name or has the same hash |
| `AcceptedUndo.UndoAfterAcceptance` | resources/transaction.go:441-481 | after any number of steps of undoing an accepted journal, metadata-only ones included, start-up accepts the home exactly if those destinations are harmless and the manifest step has not come, or the two manifests are equal |
| `AcceptedUndo.UndoIsSafeIff` | resources/plan.go:494-528 | undoing an accepted journal can be interrupted anywhere exactly if there is nothing to undo |
| `AcceptedUndo.UndoThenStart` | resources/transaction.go:38-61 | the undo in any weather and then a start-up: it opens exactly under that condition or once the journal is gone, and a refused home stays refused |
| `AcceptedUndo.UndoIsNotSafe` | resources/transaction.go:442-476 | two concrete homes, one with a file to restore and one metadata-only, that start-up refuses in the middle of the undo |
| `ResourcePromotion.VerifyManifestFiles` | resources/transaction.go:532-541 | succeeds only if every file of the manifest is present, fits and matches; fails then only for a crash or fault |
| `ResourcePromotion.PrepareEntries` | resources/transaction.go:206-238 | every entry describes its destination, with a saved copy of the present file or an empty destination, and a checked staged file |
| `ResourcePromotion.PreparedEntries` | resources/transaction.go:206-238 | prepared entries are distinct, undoable, and undoing them changes nothing yet |
| `ResourcePromotion.PreparedJournal` | resources/transaction.go:190-248 | every journal that a promotion writes is one that recovery accepts |
| `ResourcePromotion.MoveFiles` | resources/transaction.go:256-271 | whatever happens, undoing leads to the same files; on success every arrival is in place and every dropped name is free |
| `ResourcePromotion.CarryOut` | resources/transaction.go:256-281 | with the journal open: outcome kept always, promotion complete on success; a live process is left with the journal only if both a step and the undo after it failed |
| `ResourcePromotion.FailPromotion` | resources/transaction.go:284-294 | undoes the open journal at once: without a failing step every file and the manifest are the previous ones and journal and directory are gone; otherwise the home stands at a counted step of the undo (`UndoAt`) |
| `ResourcePromotion.Promote` | resources/transaction.go:148-282 | success is a complete, still undoable promotion described by the journal; every error or crash keeps the outcome; one failed step leaves no journal in a live process, and without any it succeeds exactly as far as the home allows (`Promotable`) |
| `ResourcePromotion.OpenJournal` | resources/transaction.go:239-255 | writing the prepared journal keeps soundness and outcome |
| `ResourcePromotion.PromoteMetadata` | resources/transaction.go:296-323 | the same for a commit that moves no file; one failed step leaves a journal only over the unchanged manifest |
| `ResourcePromotion.WriteMetadata` | resources/transaction.go:296-323 | after an error a live process is left with the journal only if the undo failed as well, or if it was the journal's own write that took effect and reported an error: that one is not undone |
| `ResourcePromotion.OpenMetadata` | resources/transaction.go:304-318 | a valid metadata-only journal has nothing to undo, and both manifests fit the files |
| `ResourceRecovery.RecoverTransaction` | resources/transaction.go:38-61 | acts on whatever a dead process left without changing the outcome and succeeds unless interrupted; refuses, and leaves alone, exactly the accepted journals over other files or another manifest |
| `ResourceRecovery.RemoveOrphans` | resources/transaction.go:63-85 | removes every private directory and nothing else |
| `ResourceRecovery.RemoveLegacyGenerations` | resources/transaction.go:642-664 | deletes the old layout only where the manifest no longer refers to it |
| `ResourceRecovery.BackedContents` | resources/transaction.go:87-146 | what a layout shows is determined by its manifest, whichever layout it is |
| `ResourceRecovery.MigrationPromotable` | resources/transaction.go:114-135 | once the old files are staged a migration has everything a promotion needs |
| `ResourceRecovery.MigrateV1` | resources/transaction.go:87-146 | resources, bytes and the user's own files are the same at every moment; the old layout stays exposed untouched until the new one is accepted |
| `ResourceRecovery.NewRegistry` | resources/registry.go:84-136 | on a sound disk it succeeds unless interrupted, ends without journal and private directories on a version 2 manifest, drops the old layout once the stable files are whole, and keeps the contents; it never opens an unsound home with an accepted journal |
| `ResourceRecovery.AcceptingIsSoundIff` | resources/transaction.go:47-55 | for an accepted journal soundness is start-up's own test: the candidate's commit ID and every one of its files |
| `ResourceRecovery.OpenAfterCrashes` | resources/registry.go:113-136 | any number of start-ups that crash or fail anywhere, then one that runs through: same resources and bytes; from version 2 the whole view is identical |
| `ResourceRecovery.PromotionLeavesNoTrace` | resources/transaction.go:148-282 | a promotion cut short anywhere, or never accepted, leaves after restarts the previous manifest and exactly the files there were |
| `ResourceRecovery.AcceptanceIsAtomic` | resources/transaction.go:483-510 | an acceptance cut short anywhere ends after restarts with all of the previous set or all of the candidate, the latter exactly once the mark was written |
| `ResourcePlan.UnchangedIffMetadataJournal` | resources/plan.go:317-328 | a metadata-only journal is valid exactly for the plans judged unchanged |
| `ResourcePlan.Plan.VerifyStagedFiles` | resources/plan.go:562-590 | succeeds exactly if every file of the plan, staged or stable, is readable and has its hash, unless interrupted |
| `ResourcePlan.Plan.Validate` | resources/plan.go:353-379 | a pending plan becomes validated only if its files and its candidate passed, and then always unless a step fails |
| `ResourcePlan.Plan.Commit` | resources/plan.go:388-440 | commits only a validated pending plan, with no journal open, onto its own base, and then always if its files fit and its new names are free; outcome kept; a failure changes no flag, and one failed step leaves no new journal but that of a metadata commit over the unchanged manifest |
| `ResourcePlan.PlanPromotable` | resources/transaction.go:148-238 | staged files that fit, a base that is whole and free new names are all that a promotion needs |
| `ResourcePlan.Plan.Finalize` | resources/plan.go:443-491 | accepts the plan's own promotion or changes nothing; its staging directory is gone; without faults it completes or the process dies |
| `ResourcePlan.Plan.Rollback` | resources/plan.go:494-528 | an open promotion is undone without ever changing the outcome; memory returns to the base |
| `ResourcePlan.Plan.Abort` | resources/plan.go:531-560 | closes, unless a step fails, exactly the plans that are not committed or are undone, and their staging directory is gone; touches staging only |
| `ResourcePlan.CopyIn` | resources/plan.go:125-139 | every prepared resource lies in the stage under its own name with the bytes its state promises; it fails only for a failing step or bytes that are not at hand |
| `ResourcePlan.StagePlan` | resources/plan.go:85-142 | hands out a plan over the manifest on disk whose files are all whole, unless memory and disk disagree, bytes are missing or a step fails; a failure leaves the home as it was |
| `ResourceSession.CommitOne` | resources/plan.go:388-440 | with a ledger of commit IDs: the plan's base is the manifest on disk, IDs are new, earlier IDs keep their manifests; a plan that can be committed is, unless a step fails; only an input/output error leaves a journal behind, and it is still open |
| `ResourceSession.FinalizeOne` | resources/plan.go:443-491 | the only event that changes the outcome, and then to exactly this plan's candidate, unless the process dies |
| `ResourceSession.RollbackOne` | resources/plan.go:494-528 | restores base, manifest and memory together, or fails without changing the outcome |
| `ResourceSession.Session.Commit` | resources/plan.go:403-433 | a plan whose base changed is refused; at a commit no journal is open, and no plan is unfinished but those whose journal went in a failed rollback |
| `ResourceSession.Session.Rollback` | resources/plan.go:494-528 | undoes a plan without changing the outcome; a plan is left unfinished without a journal only if this removed the journal and failed afterwards |
| `ResourceSession.Session.Stage` | resources/plan.go:61-142 | a request adds one plan over the manifest on disk that answers it, exactly if it can be prepared and no step fails |
| `ResourceSession.Session.Finalize` | resources/plan.go:443-491 | a waiting plan becomes the outcome unless the process dies |
| `ResourceSession.Session.Validate` | resources/plan.go:353-379 | without a failing step a pending plan is validated exactly if it is accepted and whole |
| `ResourceSession.Session.AtMostOneUnfinished` | resources/plan.go:403-526 | two plans are committed and unfinished only if the rollback of one of them failed after its journal was gone |
| `ResourceSession.Session.Step` | resources/plan.go:353-560 | each event keeps the ledger, the truth of every committed validator, the user's own files, and, unless it accepts a plan, the outcome |
| `ResourceSession.Session.Run` | resources/plan.go:353-560 | the same over every run, staging through conditional requests included, with crashes, errors and restarts anywhere |
| `ResourceSession.StableFilesAreTheManifests` | resources/transaction.go:206-281 | without a journal the stable files are exactly the manifest's, with the promised bytes, and the user's own |
| `ResourceSession.SameCommitSameBytes` | resources/plan.go:418-432 | at any two moments of a run equal commit IDs mean equal manifests and equal bytes |
| `ResourceFetch.NamesNeverClash` | resources/registry.go:306-313 | comparing destinations among geodata only is enough: no two resources share a file |
| `ResourceFetch.ValidateSnapshot` | resources/registry.go:273-316 | decides exactly the valid snapshots: IDs, declarations, sources, intervals, pins and destinations |
| `ResourceFetch.StagedBody` | resources/plan.go:256-304 | bytes of a remote resource are the ones the server holds now, sent or confirmed by 304; validators belong to them; when every read works the result is exactly what the reply, asked with the validators of a usable copy, calls for |
| `ResourceFetch.PrepareCommitted` | resources/plan.go:238-254 | a resource that is not due keeps its committed state, exactly if its copy passes the checks again |
| `ResourceFetch.PrepareDue` | resources/plan.go:191-230 | a due resource gets the content behind its source, a valid state with truthful bounded validators and the time of the check, exactly if that content is valid and fits its pin |
| `ResourceFetch.PrepareResources` | resources/plan.go:173-236 | exactly the enabled resources, each prepared well, can be staged; without a failing step it succeeds exactly if each of them can be had |
| `ResourceFetch.StageDue` | resources/plan.go:61-142 | a plan over the manifest on disk that covers exactly the enabled resources, due ones as their source holds them and the others as committed, with truthful validators and whole files; without a failing step there is one exactly if memory knows the manifest and the request can be prepared |
| `ResourceFetch.StagedIsCommittable` | resources/plan.go:388-440 | a plan staged for a request can be committed as long as the home has room: files that fit and free new names |
| `SubscriptionImage.SoundIffAlwaysOpenable` | subscriptions/store.go:690-707 | a store is sound exactly if start-up opens it whatever resource commit it recovers |
| `SubscriptionImage.RemovalIsIntact` | subscriptions/store.go:724-746 | files may go exactly if no current or applied pair needs them |
| `SubscriptionImage.RemovalIsOpenable` | subscriptions/store.go:724-746 | and for a start-up with a given commit exactly if the pair it goes back to does not need them either |
| `SubscriptionImage.FileIsSound` | subscriptions/store.go:463-467 | writing a generation file again harms no stored pair |
| `SubscriptionImage.LeavingIsIntact` | subscriptions/store.go:377-402 | a subscription may leave exactly if it is not active |
| `SubscriptionImage.LeavingIsOpenable` | subscriptions/store.go:377-402 | and for a start-up with a given commit exactly if it is not what that start-up goes back to |
| `SubscriptionImage.NewDirIsSound` | subscriptions/store.go:235-246 | a new directory is acceptable exactly once it has its record |
| `SubscriptionStore.CleanupGenerations` | subscriptions/store.go:724-746 | removes only unneeded files, all of them when nothing fails; any interruption is harmless |
| `SubscriptionStore.CleanupIsSoundIff` | subscriptions/store.go:718-746 | after a complete cleanup a start-up with a given commit opens exactly if it undoes no activation, or the pair it goes back to is also current or applied |
| `SubscriptionStore.StrandedFallback` | subscriptions/fetch.go:334-371 | from every store with two subscriptions: mark, apply, neither finalize nor undo, refresh the former one, and the next start-up refuses to open |
| `SubscriptionStore.OpenStore` | subscriptions/store.go:83-197 | reading the store and comparing the marker succeeds in calm weather exactly on the stores that are openable under the recovered commit |
| `SubscriptionStore.Service.Promote` | subscriptions/store.go:449-476 | both files, then the record; interrupted anywhere the last good pair stays current and stored |
| `SubscriptionStore.Service.RollbackPromotion` | subscriptions/store.go:478-497 | the previous record is back with its pair stored and the withdrawn files gone; memory goes back even if the record cannot be written |
| `SubscriptionStore.Service.FinalizePromotion` | subscriptions/store.go:499-505 | keeps the current and the applied pair and, uninterrupted, nothing else |
| `SubscriptionStore.Service.CleanupApplied` | subscriptions/store.go:592-596 | the same in every directory |
| `SubscriptionStore.Service.SetApplied` | subscriptions/store.go:533-566 | one write of active.json, of a stored pair, and memory follows it |
| `SubscriptionStore.Service.RestoreApplied` | subscriptions/store.go:574-590 | back to an earlier pair or to none |
| `SubscriptionStore.Service.MarkPending` | subscriptions/store.go:608-621 | ties an activation to a commit unless another one is tied |
| `SubscriptionStore.Service.MarkAccepted` | subscriptions/store.go:661-672 | sets the accepted flag of the marker that is there and nothing else |
| `SubscriptionStore.Service.RetryCleanup` | subscriptions/store.go:674-686 | an unaccepted marker blocks; an accepted one is removed |
| `SubscriptionStore.Service.RecoverPending` | subscriptions/store.go:690-707 | every step keeps the subscription that will be active; it succeeds, unless interrupted, exactly on an openable store, leaves no marker, and cleans up |
| `SubscriptionStore.Service.Delete` | subscriptions/store.go:377-402 | the active subscription is refused; any other is gone whole or there whole, gone unless a step fails; a quarantine is left only if removing it failed |
| `SubscriptionStore.Service.Add` | subscriptions/store.go:228-248 | adds one directory with its record and touches nothing else; cut between the two steps it leaves exactly a directory that every start-up refuses |
| `SubscriptionStore.Service.Replace` | subscriptions/store.go:363-375 | changes one record and no snapshot |
| `SubscriptionStore.Service.TouchSuccess` | subscriptions/store.go:404-430 | keeps validators that a reply does not repeat; writes only when a failure ends |
| `SubscriptionStore.Service.TouchFailure` | subscriptions/store.go:432-448 | reports a failure without touching the snapshot |
| `SubscriptionStore.NewStore` | subscriptions/store.go:83-197 | opens exactly the intact stores unless interrupted: every record and the applied pair stored |
| `SubscriptionRefresh.InstallLatest` | subscriptions/fetch.go:261-284 | an unknown subscription is added; a changed URL drops the validators and keeps the pair; other changes keep both; it fails only for a failing step |
| `SubscriptionRefresh.Install` | subscriptions/fetch.go:225-243 | stores the server's profile with its candidate exactly if the source is still current, before and after, and no step fails; otherwise the last good pair stays |
| `SubscriptionRefresh.Unmodified` | subscriptions/fetch.go:134-162 | a 304 confirms the stored profile; a downloaded-only one is taken through rendering and validation like a sent one; without a profile it is a failure |
| `SubscriptionRefresh.StoreReply` | subscriptions/fetch.go:164-243 | a complete profile is confirmed if it is already there, stored exactly if its form, rendering, validation, deadlines and source allow it, and otherwise the record notes the first objection and keeps its pair |
| `SubscriptionRefresh.NoObjection` | subscriptions/fetch.go:174-224 | what is stored is plausible, and its candidate is the profile itself or what it was rendered to and Mihomo accepted |
| `SubscriptionRefresh.Refresh` | subscriptions/fetch.go:51-244 | with an honest server a success leaves the server's profile current, 304 or not, beside a candidate that Mihomo accepted or, download-only, the profile itself; each kind of reply ends as `Trace` says, converse included; a failure leaves every last good pair; validators stay truthful in memory and on disk |
| `Activation.ApplyPlan` | app/lifecycle.go:308-405 | succeeds only with a validated plan, what ran stopped and the candidate started, and then always if the plan can be committed and no step fails; otherwise files and manifest are put back; the outcome does not change |
| `Activation.UndoPlan` | app/lifecycle.go:407-437 | a candidate that could be stopped is undone completely unless a step fails, and success says that what ran came back; going back keeps the outcome of an open promotion, and leaves the journal for the next start-up if it cannot |
| `Activation.CommitBoth` | subscriptions/fetch.go:327-379 | whatever happens the disk stands for the old pair of resources and subscription or the new pair; only the accepted mark leads across; after one failed step before it everything is put back; after an error past it start-up may refuse but never mixes |
| `Activation.MarkAndApply` | subscriptions/fetch.go:330-353 | marker and active.json before the acceptance, or, after one failed step, both stores exactly as they were |
| `Activation.FinalizeBoth` | subscriptions/fetch.go:354-371 | a failed finalization is undone in both stores, at every step behind the marker, before the acceptance and after it; one failed step is undone completely |
| `Activation.Revoke` | subscriptions/fetch.go:356-371 | undoing past the acceptance: if start-up opens the home at all, resources and subscription are both old or both new |
| `Activation.Activate` | subscriptions/fetch.go:288-384 | all of the above with or without a plan, for what is already applied too; success means that the candidate started and nobody cancelled, a candidate that did not start changes nothing, and an activation that can succeed does unless a step fails, and cleans up |
| `Activation.CommitResources` | app/serve.go:176-189 | a commit of resources alone ends old or new, new only if the restart worked, and always if it can be committed and no step fails; it moves the active subscription exactly if an unmarked activation is still tied to one of the two commits |
| `Activation.MixedByRefresh` | subscriptions/fetch.go:372-375 | an accepted activation whose mark failed and then, in calm weather, a commit of resources: the next start-up leaves the earlier subscription beside the newest resources |
| `Activation.StartUp` | app/service.go:55-65 | resources first, then the store, then the marker: the outcome is kept at every step |
| `Activation.StartAfterCrashes` | app/service.go:55-65 | any number of interrupted start-ups, then one that ends with the outcome the disk stood for |
| `ServiceRun.DoActivate` | app/lifecycle.go:224-405 | the outcome stays or becomes the current pair together with exactly the requested resources; it stays if the candidate is invalid, cancelled or does not start, and it changes if the request is feasible (`Feasible`) and the process lives |
| `ServiceRun.DoRefreshResources` | app/serve.go:145-189 | the active subscription stays; the resources stay or become the requested ones, and become them if the request is feasible, valid, restarted where needed, and the process lives |
| `ServiceRun.DoAdd` | subscriptions/fetch.go:261-269 | an addition keeps the outcome and everything that holds between events |
| `ServiceRun.DoRefresh` | subscriptions/fetch.go:51-244 | a refresh keeps the outcome and ends as its reply says |
| `ServiceRun.DoDelete` | subscriptions/model.go:339-353 | a deletion keeps the outcome and, unless the process dies, removes exactly a subscription that is not active |
| `ServiceRun.Run` | subscriptions/fetch.go:51-384 | over every run of additions, refreshes, deletions, resource commits, activations and restarts every pair referred to is stored, start-up succeeds, and the validators of subscriptions and resources are truthful |
| `ServiceRun.ActivationIsAtomic` | subscriptions/fetch.go:318-379 | an activation that commits resources, crashed at any step, and any crashed start-ups after it, end old with old or new with new; old with old if the candidate is invalid, cancelled or does not start |
| `MonitorStats.SortIgnoresOrder` | monitor/policy.go:292-301 | with distinct keys the sorted result does not depend on the input order |
| `MonitorStats.RecentIsSorted` | monitor/policy.go:292-301 | the window is sorted, of the right length, made of the given samples, and stable under repetition |
| `MonitorStats.RecentIsNewest` | monitor/policy.go:292-301 | nothing outside the window finished later than anything in it, and no sample is lost |
| `MonitorStats.MedianSplits` | monitor/policy.go:336-343 | half of the values are not above the median and half are not below |
| `MonitorStats.MedianIgnoresOrder` | monitor/policy.go:336-343 | the median depends on the values as a bag |
| `MonitorStats.MedianIsExact` | monitor/policy.go:336-343 | the middle value of an odd count and the rounded-down middle of the two middle values of an even one |
| `MonitorStats.LatenciesAreExact` | monitor/policy.go:317-324 | each latency is counted as often as a sample answered with it |
| `MonitorStats.DeviationCounts` | monitor/policy.go:329-331 | each distance is counted as often as a value lies at it |
| `MonitorStats.StatsMeasures` | monitor/policy.go:314-334 | failures, median and jitter are those of the samples, stated from the samples alone |
| `MonitorStats.Stats` | monitor/policy.go:314-334 | a window with a success has a positive median; all failed is seen exactly |
| `MonitorStats.StatsCountFailures` | monitor/policy.go:314-334 | failures are the number of failed samples; median and jitter are those of the others |
| `MonitorStats.MeasureStability` | monitor/policy.go:314-334 | of the newest samples: how many failed, the median of exactly the latencies of the others, and the median of their distances to it |
| `MonitorPolicy.SteadierIsTotal` | monitor/policy.go:266-277 | the ranking is asymmetric and total on different names |
| `MonitorPolicy.SteadierIsTransitive` | monitor/policy.go:266-277 | the ranking is transitive |
| `MonitorPolicy.WinnerIsBest` | monitor/policy.go:249-277 | no eligible candidate has fewer failures than the winner, among equals none a smaller median, then none a smaller jitter, then none an earlier name |
| `MonitorPolicy.EligibleIff` | monitor/policy.go:225-248 | who may replace the selected node, stated from the samples |
| `MonitorPolicy.SamplesAreExact` | monitor/policy.go:164-170 | a node is judged by exactly its own samples of this group and test URL |
| `MonitorPolicy.LessIsLexical` | monitor/policy.go:276 | names compare by their first difference |
| `MonitorPolicy.AssessSelected` | monitor/policy.go:185-218 | counting from the newest sample back finds exactly whether the last samples are all unhealthy |
| `MonitorPolicy.PickBest` | monitor/policy.go:223-256 | one pass finds the unique least eligible candidate, or that there is none |
| `MonitorPolicy.Decide` | monitor/policy.go:160-262 | the decision is the declaratively right one for the windows of the samples |
| `MonitorPolicy.DecisionIsUnique` | monitor/policy.go:160-262 | there is exactly one right decision |
| `MonitorPolicy.DecideIgnoresOrder` | monitor/policy.go:160-301 | it depends neither on the order of the roster nor, with distinct finish times, of the samples |
| `MonitorPolicy.SwitchTarget` | monitor/policy.go:225-260 | a switch goes to another live member with enough successes; lower latency means a real median gain |
| `MonitorPolicy.StepGains` | monitor/policy.go:191-248 | on frozen samples a lowest-latency switch gains the minimum unless it leaves a dead node |
| `MonitorPolicy.ChainNeverReturns` | monitor/policy.go:185-261 | a chain of lowest-latency switches never selects a node twice |
| `MonitorPolicy.ChainIsBounded` | monitor/policy.go:185-261 | and is shorter than the first median divided by the minimum improvement |
| `MonitorSteady.MeasurePulls` | monitor/steady.go:109-124 | broken pulls and the middle rate of the completed ones |
| `MonitorSteady.CheckNonePasses` | monitor/steady.go:19-35 | finds exactly whether several nodes were pulled and every newest pull broke |
| `MonitorSteady.SortEligible` | monitor/steady.go:58-87 | the insertion sort of exactly the eligible nodes, in which nothing clearly better stands behind |
| `MonitorSteady.DecideSteady` | monitor/steady.go:10-97 | the choice has the fewest broken pulls and among those the highest rate; without a circle it is the least of all |
| `MonitorSteady.SteadyIsUnique` | monitor/steady.go:74-88 | without a circle among the eligible nodes there is exactly one right decision |
| `MonitorSteady.SteadyChainDescends` | monitor/steady.go:36-69 | each switch on frozen samples strictly lowers the number of broken downloads |
| `MonitorSteady.CircleIff` | monitor/steady.go:74-87 | three nodes compare in a circle exactly if their downloads are equal and, in some rotation, the middle one by name has no latency and the last is faster than the first |
| `MonitorSteady.TransitiveIff` | monitor/steady.go:74-87 | on any set of nodes the comparison is transitive exactly if no three of them are such a trap |
| `MonitorSteady.RosterIsFreeIff` | monitor/steady.go:58-88 | the choice is the same for every order of the roster exactly if one eligible node compares before all others |
| `MonitorSteady.LeastComesFirst` | monitor/steady.go:74-88 | a node that compares before all others comes out first, circles among the others or not |
| `MonitorSteady.CircleFollowsRoster` | monitor/steady.go:74-88 | three nodes in a circle come out in the order in which they were listed |
| `MonitorSteady.UnmeasuredMakesACircle` | monitor/steady.go:82-86 | a concrete circle |
| `MonitorHistory.WindowOfWindow` | monitor/scheduler.go:501-505 | trimming after every sample equals trimming the whole log |
| `MonitorHistory.PruneStreams` | monitor/scheduler.go:634-644 | the loop drops exactly the expired prefix and what exceeds the window |
| `MonitorHistory.PrunedKeeps` | monitor/scheduler.go:632-644 | kept are exactly the pulls that are recent enough and among the last |
| `MonitorHistory.PruneOfPrune` | monitor/scheduler.go:465-485 | with growing cutoffs pruning early makes no difference |
| `MonitorHistory.HistoryIsPrunedLog` | monitor/scheduler.go:463-485 | the incremental history equals pruning the complete log once |
| `MonitorHistory.AddSelected` | monitor/scheduler.go:651-664 | distinct members, selected nodes only, all of them if they fit |
| `MonitorHistory.FastestIsLive` | monitor/scheduler.go:670-684 | the first candidate is a live member with the least median, if there is any |
| `MonitorHistory.StreamTargets` | monitor/scheduler.go:651-694 | distinct members within the cap, selected first; the group whose turn it is gets its fastest in |
| `MonitorHistory.PullRounds` | monitor/scheduler.go:403-404 | over as many rounds as groups every group's fastest candidate is pulled |
| `MonitorLoop.SendKeepsBalance` | monitor/scheduler.go:496-497 | sending keeps remaining equal to unsent plus in flight |
| `MonitorLoop.AnswerKeepsBalance` | monitor/scheduler.go:498-507 | so does a counted answer |
| `MonitorLoop.BalancedAndDone` | monitor/scheduler.go:508-516 | when every count is zero nothing is unsent or in flight |
| `MonitorLoop.ProbeLoop.SetGroups` | monitor/scheduler.go:74-120 | only valid group sets are taken, and a different one raises the generation |
| `MonitorLoop.CheckGroup` | monitor/scheduler.go:78-105 | the one-pass check accepts exactly the groups without blank or repeated names whose selected node is a member |
| `MonitorLoop.ProbeLoop.Refresh` | monitor/scheduler.go:303-357 | the loop knows exactly the callers' groups, forces exactly those asked for or changed, and keeps a history only while a group is probed |
| `MonitorLoop.BuildRound` | monitor/scheduler.go:372-390 | exactly one task per proxy of every group that is due or forced, with exact counts; the round lists exactly those groups, each once |
| `MonitorLoop.ProbeLoop.StartRound` | monitor/scheduler.go:364-391 | a round starts only when nothing is unsent or in flight, with those tasks and the present generation |
| `MonitorLoop.ProbeLoop.Answer` | monitor/scheduler.go:498-557 | a batch is emitted exactly by the last answer and has the round's samples; the loop then takes over the callers' groups and requests |
| `MonitorLoop.ProbeLoop.EmitBatch` | monitor/scheduler.go:517-554 | one right decision per still known group of the round if the generation is unchanged; otherwise none, and exactly the round's groups lose their histories |
| `MonitorLoop.ProbeLoop.Run` | monitor/scheduler.go:360-559 | in every run each batch has one sample per task of its round and, over unchanged groups only, one right decision per group of the round that is still known |
| `MonitorLoop.DecideAll` | monitor/scheduler.go:529-537 | each decision is right for what the group's bounded history shows |
| `MonitorLoop.StillKnownIs` | monitor/scheduler.go:529-537 | decided are exactly the groups of the round that are still known, in its order |
| `MonitorLoop.ProbeLoop.Turn` | monitor/scheduler.go:360-559 | what each event does to groups, unsent tasks, flights and batches |
| `Lifecycle.ReselectionIsExact` | app/lifecycle.go:713-750 | on the configuration it was made for, a selection comes back whole |
| `Lifecycle.Runtime.StartProcess` | app/lifecycle.go:752-868 | a controller exists exactly after success, which needs every call to work; what was launched and does not answer is stopped again; a running process is not started over |
| `Lifecycle.Runtime.StopProcess` | app/lifecycle.go:870-889 | the controller is gone whether or not the process stopped |
| `Lifecycle.Runtime.RestoreSelections` | app/lifecycle.go:713-750 | selects again whatever the groups still offer |
| `Lifecycle.Runtime.RestorePrevious` | app/lifecycle.go:674-701 | reports success only if file, memory, process, selections and proxy are back; whatever it leaves is consistent |
| `Lifecycle.Runtime.SwitchMode` | app/lifecycle.go:562-577 | a live mode switch is recorded or taken back, unless switching back fails |
| `Lifecycle.Runtime.TakeDown` | app/lifecycle.go:591-600 | a proxy that cannot be put back leaves everything as it was; a process that does not stop leaves controller gone and proxy off, process and file as before |
| `Lifecycle.Runtime.ApplyCandidate` | app/lifecycle.go:544-672 | the candidate is in file, memory and process with the wanted proxy and TUN device and the selections it still offers, or everything is as before, unless putting back failed or what ran did not stop, each with its exact end; it fails if any call it depends on never works, TUN check and proxy included; success misses the candidate exactly if memory already has it and a mode was not switched back; the proxy is never left on without a controller |
| `Lifecycle.Runtime.Restart` | app/lifecycle.go:578-672 | the same for everything but an unchanged candidate or a change of mode alone |
| `Lifecycle.Runtime.Stop` | app/lifecycle.go:891-897 | proxy first, then controller and process, with the exact state after each failure |
| `Lifecycle.Runtime.ChildExited` | app/serve.go:517-526 | the controller goes; the proxy stays on exactly if it was on and could not be put back |
| `Lifecycle.Runtime.SwitchProxy` | app/commands.go:496-507 | the desktop proxy is switched as asked or as before, with exactly the calls that takes |
| `Lifecycle.Runtime.RevertChange` | app/commands.go:418-454 | withdrawing a change ends with the proxy on and no controller exactly if it was on before, turning it on works and the earlier configuration did not come up; what was selected and is still offered is selected again |
| `Lifecycle.Runtime.Do` | app/serve.go:476-531 | the two operations that can leave the proxy on without a controller, each with its exact condition, and what every operation comes to where nothing stands in its way |
| `Lifecycle.Runtime.Run` | app/lifecycle.go:540-897 | over every run and every outcome of every call: file, memory and process agree while a controller exists, but for a mode that was not switched back; the proxy is on only with a controller unless a child exited whose proxy restore failed or a change was withdrawn that had the proxy on |
| `Lifecycle.StrayProxy` | app/commands.go:434-447 | a run that ends with the proxy on and nothing running |
| `Lifecycle.LeftRunning` | app/lifecycle.go:598-600 | a run that ends half down: the old process runs on without controller and proxy |
| `Lifecycle.UnnoticedMode` | app/lifecycle.go:558-577 | a run in which applying the recorded configuration succeeds and leaves another mode |
| `ServiceWork.PlanSettles` | app/serve.go:349-397 | a plan whose fate is open meets exactly one |
| `ServiceWork.Service.CompleteWork` | app/serve.go:196-212 | the outcome carries its request's ID, and the plan if one was prepared; a plan prepared for an expired request is aborted by the worker |
| `ServiceWork.Service.SendResult` | app/serve.go:213-219 | the plan passes from the worker to the end of the channel, if there is room |
| `ServiceWork.Service.QuitWorker` | app/serve.go:220-224 | a worker that leaves aborts exactly the plan it could not hand over |
| `ServiceWork.Service.FinishWork` | app/serve.go:349-397 | the oldest result's plan is applied if its work is still wanted, otherwise aborted; a finished TUN request cancels the others |
| `ServiceWork.Service.Shutdown` | app/serve.go:274-290 | after the workers left and the channel is drained no plan is open, and every plan settled meanwhile was aborted |
| `ServiceWork.Service.Run` | app/serve.go:191-397 | in every interleaving exactly the prepared plans have a fate, one each; each worker has at most one result outstanding |
| `RefreshScheduler.DueIDs` | subscriptions/store.go:800-822 | exactly the due subscriptions and the earliest deadline |
| `RefreshScheduler.DueMeans` | subscriptions/store.go:800-822 | due is what is enabled, not excluded, and was never checked or checked an interval ago |
| `RefreshScheduler.Scheduler.Begin` | subscriptions/scheduler.go:167-175 | a pass begins with exactly what is due by check time and interval and is not pending |
| `RefreshScheduler.Scheduler.OfferNext` | subscriptions/scheduler.go:177-196 | one offer at a time, exactly the next due one, workers in between; a pass that ends without a refusal has made everything pending that was due |
| `RefreshScheduler.Scheduler.Take` | subscriptions/scheduler.go:137-145 | the oldest job moves to a worker |
| `RefreshScheduler.Scheduler.Read` | subscriptions/scheduler.go:160-166 | a completion frees its subscription |
| `RefreshScheduler.Scheduler.Run` | subscriptions/scheduler.go:125-233 | in every interleaving, with the records changing under it, a subscription is pending exactly while one job for it is queued, running or unread, and an owner that was refused has a job outstanding that will wake it |
| `IpcServer.Offer` | ipc/server.go:343-364 | whenever the reader steps in, the newest snapshot ends up taken or waiting, behind smaller revisions only |
| `IpcServer.Server.Publish` | app/runtime.go:470-481 | the revision grows by one with every change, and every subscriber is brought up to date |
| `IpcServer.Server.AddClient` | ipc/server.go:195-206 | a new subscriber starts with the current snapshot |
| `IpcServer.Server.Run` | ipc/server.go:84-96 | in every interleaving revisions are strictly increasing and the last received or waiting one is the latest published |

## Left out

- User interfaces, tray, localisation, command line, and all presentation of state.
- Real HTTP, TLS, sockets, subprocesses, desktop proxy settings and authorization dialogs: they are outcomes or parameters.
- YAML, TOML and JSON parsing and SHA-256: parsing is a given value and hashing is injective.
- fsync ordering, permissions, symbolic links and foreign edits of the managed directories: file steps are atomic and ordered, and a failed directory sync appears as a step that took effect and reports an error.
- The sorted order in which names, IDs and groups are visited: the model visits them in any order.
- Size limits of journals and manifests in bytes: the journal limit is a limit on its number of entries, and manifests have none.
- Locks: service operations run one at a time, so a refresh of one subscription does not interleave with the activation of another.
- ResourceSession.FinalizeOne: asks for a disk that may crash but does not fail; an error before the accepted mark is like one in a rollback, and one after it is followed by the undo of `AcceptedUndo`.
- ResourceSession.Session.Step: the same for its acceptance event; after an error that leaves a promotion behind the session accepts no plan until it is restarted.
- ResourceSession.Session.Run: the same.
- SubscriptionStore.NewStore: the older `active.json` without hashes is not read.
- Activation.ApplyPlan: starting and stopping Mihomo around the plan is whether each of these steps works; what they do is `Lifecycle`.
- Activation.UndoPlan: the same.
- ServiceRun.DoActivate: steps crash but do not fail; `Activate` covers failing steps, which can leave a marker or a journal behind that the run would have to carry on with.
- ServiceRun.DoRefreshResources: the same; `CommitResources` covers failing steps.
- ServiceRun.DoAdd: its two steps are taken together; what a crash between them leaves is said by `Add`.
- ServiceRun.Run: the same, and steps crash but do not fail.
- Lifecycle.Runtime.ApplyCandidate: always works on the service's own configuration file; the variant that replaces a local profile and restores the managed file separately is not modelled, nor are the report of overrides and the restart for a leftover TUN device.
- MonitorLoop.ProbeLoop.Run: the stream pulls that share the loop, latency alerts, dial-failure requests and all timing are left out; which groups are due is an input.
- Failover on frozen samples may swap two nodes back and forth, since its baseline is the last few samples while candidates are measured over the whole window; no bound is claimed.
- Configuration validation, edit patches and snapshot cloning: settled by reading each function.
