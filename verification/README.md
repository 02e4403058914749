# Kafkarator in Dafny

Kafkarator keeps Kafka topics, streams and access control lists at Aiven in line with `Topic` and `Stream`
resources in a Kubernetes cluster. This project models what it does with them and proves what that is for.
`dafny verify dfyconfig.toml` checks all of it.

| module | models |
|---|---|
| `AclModel`, `AclManager` | the ACL diff and its application, `pkg/aiven/acl` |
| `AclInterleaving`, `AclRuns`, `AclCalls`, `AclOutcomes`, `AclProgress` | many ACL managers at work on one service, one call of one manager as a run among them, the calls it makes, dry runs and runs without failures, and how far each manager has to go |
| `TopicModel`, `TopicManager` | topic settings, their comparison, create and update, `pkg/aiven/topic` |
| `AivenService` | the remote service: entries with IDs, topics, and calls that can fail |
| `Synchronizer`, `TopicReconciler`, `TopicGuarantees`, `TopicOutcomes` | the Topic reconcile loop, what one call guarantees, and what it answers and stores |
| `TopicInterleaving`, `TopicAlone` | many Topic reconciles on one service, one remote call at a time, and one reconcile as a run among them |
| `TopicRuns`, `TopicAlignment`, `TopicProgress`, `TopicOrphans`, `TopicLives` | whole lives of a Topic: its hash and finalizer, when Aiven has what a skipped topic asks for, how soon it is settled or gone, what is left behind, and concrete lives |
| `StreamReconciler`, `StreamGuarantees`, `StreamOutcomes` | the Stream reconcile loop, what one call guarantees, and what it answers and stores |
| `StreamRuns`, `StreamSettling`, `StreamOrphans`, `StreamLives` | whole lives of a Stream: its finalizer, its hash, what is left behind, and concrete lives |
| `Scrubbing` | keeping credentials out of error texts |
| `TxProducer`, `Canary` | the transactional producer, and the canary that drives it |
| `Consumer` | the claim consumer, and the canary's callback |
| `LogPagination` | fetching log lines page by page |
| `TopicMetrics` | counting topics by source, team and pool |
| `Basics`, `Errors`, `Resources` | shared types; filtering of sequences; the resource library as parameters |

Code that changes state is a class with methods. Each such method is proved equal to a function of the old
state (`Manager.Synchronize` to `SyncAcls`, `Reconciler.Process` to `ProcessTopic`, `ConsumeClaim` to `Consume`,
and so on), and the properties are lemmas about these functions. A topic's `Config` is an object that
`Process` shares with its caller, so that filling in defaults changes the caller's topic when there is a
config and only a copy when there is none.

## What is assumed

- Aiven gives every ACL entry an ID that is unique and not empty, and answers a listing completely. It says
  "not found" exactly of what is not there. Apart from that any call can fail with any error, and a failed
  write may have taken effect before its answer was lost. The answers are scripts in the service's state
  (`answers`, `outcomes`), so a lemma about all states is one about all patterns of failure.
- Nobody else writes the ACL entries or the settings of a topic that a reconciler looks after, or the ACL entries
  of a stream. Other topics change freely, between reconciles (`TopicRuns`) and between any two remote calls of one
  (`TopicInterleaving`). A stream's topics are created by its application, at any time while the resource is there.
- A set field of an update request overwrites the value at Aiven, an unset one leaves it alone. A new topic
  starts from some default settings.
- `Hash`, `NeedsSynchronization`, `ApplyDefaults` and the user-name generator come from a library that is not in
  the repository. They are the fields of `Resources.Library`, and `Lawful` is all that is assumed of them:
  hashing is a function, filling in defaults is idempotent, and a stored hash that is equal needs no
  synchronisation. A topic's full name is its namespace, a dot and its name.
- A begin that is refused opens no transaction, a commit that is refused commits nothing, and an abort that
  succeeds discards what was sent. A refused call can leave any status flags behind. `errors.Is` and
  `IsErrUnauthorized` tell apart the errors of the producer: the latter compares the whole text, so it is never
  true of an error that has been wrapped.
- The log server answers with the earliest entries of the window, as many as the limit allows, in any number of
  streams. The end of a window does not belong to it.

## What the code does not do

These follow the code where one might expect otherwise. Each has a theorem that says exactly when, and an input.

- A topic whose rollout is complete need not have the settings that its spec asks for. The comparison overlooks the
  cleanup policy and the remote storage (`SatisfiesIff`), so an edit of these alone is never sent to a topic that is
  there, and an update leaves out the deletion retention. `SyncSatisfiesIff`: a sync that succeeds gives the topic all
  settings exactly if it creates the topic, or if the deletion retention was right and something compared differed or
  those two were right as well. That condition is `Attainable`; `RolloutIsReal`, `InLineUntilTouched` and
  `InterleavedReconcilesAreReal` carry it on. Input: `PolicyNeedNotMatch`.
- A topic that is skipped because its hash is up to date need not match Aiven. What holds: after a complete reconcile
  that was not a dry run it matches, until the user touches the resource, exactly if that was attainable
  (`InLineUntilTouched`), and after edits that are taken back it still does if the reconciles of the edited specs made
  no mutating call (`InLineAfterRevert`). A dry run stores the hash as well, and then the topic matches exactly if it
  did before. An edit to a spec of equal hash is skipped, too (`EqualHashIsSettled`); nothing is assumed of the hash but
  that it is a function. Inputs: an edit that is half applied and taken back (`SkippedNeedNotMatch`), and a dry run
  (`DryRunNeedNotMatch`).
- A topic that could not be synchronised is not always tried again. A pool whose name fails to resolve is an error
  without a retry: `RequeueIff`, `ForgottenIff`. Input: `LookUpFailureIsForgotten`.
- A resource that is gone need not have been cleaned up. `TopicOrphans.StrandedIffAbandoned` and
  `StreamOrphans.StrandedIffAbandoned`: something stays behind exactly if, while the pool has something of it, the user
  deletes a resource that has no finalizers or moves it to another pool, or a dry run lets it go, or data is kept on
  purpose. A dry run lets a topic go exactly if the pool's name resolves, the entries can be listed, the write is stored
  and no other finalizer is left (`DryGoesIff`). `GoneLeavesNothing` turns that into a rule for the user: do neither once
  a reconcile has taken the resource up. Inputs: a topic whose first write is rejected (`RejectedWriteStrands`); a topic
  deleted by a dry run (`DryRunStrands`); a stream whose first reconcile fails half-way, all writes accepted, because a
  stream gets its finalizer only from a reconcile that completes (`FailedReconcileStrands`, `StepGuardsIff`).
- An update never sends the deletion retention although it is compared. `NextSyncIsQuietIff`: a topic that exists with
  another deletion retention is updated again by the next sync, and that is the only case; `RetentionNeverSettles`: by
  every later one whose look-up is answered. Input: `RetentionExample`.
- More than 2562047 hours overflow: `HoursExactIff`, `HoursOverflow`.
- Deleting a stream in a dry run does delete its ACL entries, because that manager is not told of the dry run:
  `DryRunCallsIff`, `DryRunDeletes`.
- The error that `Process` returns is scrubbed, the status that is stored is not: `StatusRevealsIff` says for which
  errors it has a trigger word in it, `FailuresShow` for every way in which `Process` fails, and `StatusShowsToken` is
  an input.
- If recreating the producer fails, the next tick may begin a transaction while one is open: `BeginsWhileOpenIff`, and
  a run of two ticks, `FailedRecreateBeginsWhileOpen`.
- Log entries that share a timestamp with the last one of a full page are skipped, and nothing else is:
  `FetchIsCompleteIff`, `YieldedOrSkipped`, `SkippedAtCuts`. Input: `CutExample`.

## Model

| member | source | states |
|---|---|---|
| `AclModel.Contains` | pkg/aiven/acl/model.go:40-49 | true exactly when the list grants the same permission on the same topic to the same user; IDs do not matter |
| `AclModel.NewACLs` | pkg/aiven/acl/acl.go:147-155 | the wanted entries that nothing grants yet, in order and with their duplicates |
| `AclModel.DeleteACLs` | pkg/aiven/acl/acl.go:158-166 | the existing entries that nothing wants, in order |
| `AclModel.TopicACLs` | pkg/aiven/acl/acl.go:169-177 | exactly the entries of the topic, in order |
| `AclModel.GetWantedAcls` | pkg/aiven/acl/acl.go:78-90 | one entry without ID per spec entry, or the first error of the user-name generator |
| `AclModel.WantedStops` | pkg/aiven/acl/acl.go:84-86 | the first user name that cannot be generated decides the answer, whatever follows it |
| `AclModel.WantedMeans` | pkg/aiven/acl/acl.go:78-90 | every spec entry becomes one wanted entry in its place, with the access it names, the topic and the generated user; there is an answer exactly if all names can be generated, and else the first one's error |
| `AclManager.Manager.Synchronize` | pkg/aiven/acl/acl.go:36-61 | answer and service after it are those of list, diff, create, delete with an exit at the first failure |
| `AclManager.Manager.GetExistingAcls` | pkg/aiven/acl/acl.go:63-76 | the listed entries of the manager's topic, or the listing's error |
| `AclManager.Manager.Add` | pkg/aiven/acl/acl.go:92-119 | creates in order up to the first failure; nothing in a dry run |
| `AclManager.Manager.Delete` | pkg/aiven/acl/acl.go:121-144 | deletes in order up to the first failure or missing ID; nothing in a dry run |
| `AclInterleaving.StepKeepsInvariant` | pkg/aiven/acl/acl.go:36-61 | whichever manager's call comes next and however it ends, every topic stays in the state that its manager accounts for |
| `AclInterleaving.WriteElsewhere` | pkg/aiven/acl/acl.go:92-144 | no call of one manager shows in the entries of any other topic |
| `AclInterleaving.InterleavingKeepsInvariant` | controllers/topic_controller.go:298-300 | at every point of every interleaving, with any failures: wanted entries that existed are there with their IDs, all entries come from the snapshot or the spec, other topics are untouched |
| `AclInterleaving.FinishedIsExact` | pkg/aiven/acl/acl.go:33-61 | a manager that finished, from a stale snapshot and among others, leaves exactly the wanted grants |
| `AclInterleaving.SchedulesAgree` | controllers/topic_controller.go:298-300 | any two schedules that finish all managers with the same specs grant the same on every topic |
| `AclInterleaving.WriteApproaches` | pkg/aiven/acl/acl.go:92-177 | unsatisfied wanted positions plus unwanted entries never increase, and drop by one at each call that takes effect when the spec has no duplicates |
| `AclInterleaving.FinishedStaysFinished` | pkg/aiven/acl/acl.go:36-61 | starting over on a finished topic with the same spec leaves no call to make |
| `AclRuns.SyncFollows` | pkg/aiven/acl/acl.go:36-61 | one call of Synchronize, whatever fails in it, is a run of the interleaving machine in which only its own manager moves |
| `AclRuns.SyncIsSafe` | pkg/aiven/acl/acl.go:47-60 | wherever a sync stops: kept and wanted entries are there, nothing else has come, other topics are untouched, IDs stay sound so that it can be run again |
| `AclRuns.SyncIsExact` | pkg/aiven/acl/acl.go:33-61 | a sync that succeeds, from any sound state, leaves for each spec entry its access on the topic for its user, and no other grant |
| `AclRuns.RetryIsExact` | pkg/aiven/acl/acl.go:47-60 | wherever a sync stopped, a later one that succeeds, even for an edited spec, leaves exactly the grants that the spec names and other topics as before the first |
| `AclRuns.SecondSyncIsQuiet` | pkg/aiven/acl/acl.go:47-60 | where the grants are the wanted ones already a sync only lists |
| `AclRuns.InTurnIsExact` | controllers/topic_controller.go:298-300 | managers run one after another each leave their topic exact and all others untouched |
| `AclRuns.InterleavedLikeInTurn` | controllers/topic_controller.go:298-300 | any interleaving in which all managers finish grants on every topic what running them one after another grants |
| `AclRuns.DeletionFailsAt` | pkg/aiven/acl/acl.go:121-136 | when the k-th of n deletions fails first, exactly the last n - k + 1 entries are still to delete (n - k if only the answer was lost) |
| `AclCalls.CallsInOrder` | pkg/aiven/acl/acl.go:47-60 | the calls of one sync are creations of what is missing in the spec's order and then deletions of the surplus in the listing's, up to the first that fails, whose error is the answer; nothing is taken away before all that is missing is granted |
| `AclCalls.NothingWritten` | pkg/aiven/acl/acl.go:37-45 | a failed listing, or the first name that cannot be generated, is the answer, and nothing is written |
| `AclCalls.NoIdStops` | pkg/aiven/acl/acl.go:123-125 | a deletion without an ID is an error without a call |
| `AclProgress.FinishesIff` | pkg/aiven/acl/acl.go:36-61 | without failures a manager makes exactly the calls that its snapshot calls for, missing plus surplus entries, and is finished after the last and no sooner, whatever the others do, with duplicates too |
| `AclProgress.EnoughTurnsLikeInTurn` | controllers/topic_controller.go:298-300 | managers that have all listed, do not fail and get that many turns, in any order, grant on every topic what they grant one after another |
| `TopicManager.Manager.Synchronize` | pkg/aiven/topic/topic.go:47-70 | create when Aiven says "not found", update when the settings differ, nothing otherwise |
| `TopicManager.Manager.Create` | pkg/aiven/topic/topic.go:82-130 | the create request of the config, or an error and no call |
| `TopicManager.Manager.Update` | pkg/aiven/topic/topic.go:132-179 | the update request of the config, or an error and no call |
| `TopicManager.ChangedIffUpdateMatters` | pkg/aiven/topic/topic.go:191-252 | for valid settings without deletion retention the comparison is true exactly when applying the update request would change one of the compared fields |
| `TopicManager.CreateGives` | pkg/aiven/topic/topic.go:98-116 | what a create request makes of each field, from the settings: hours in milliseconds, -1, -2 and 0 for negative ones, a segment of at least an hour, the percentage over 100, remote storage on if a local retention is positive, every other field that of its own name |
| `TopicManager.UpdateGives` | pkg/aiven/topic/topic.go:149-166 | the same for an update, which leaves the deletion retention alone |
| `TopicManager.SyncGives` | pkg/aiven/topic/topic.go:47-70 | a look-up that fails is the answer, without a call; a sync that succeeds has created the topic as asked, updated it as asked, or left it |
| `TopicManager.NoConfigGives` | pkg/aiven/topic/topic.go:85-88 | without a config a topic is left alone, or created with Aiven's defaults |
| `TopicManager.BadPercentNeverSettles` | pkg/aiven/topic/topic.go:244-249 | a percentage out of range always counts as a change, and neither request can be built from it |
| `TopicManager.ChangedAfterUpdate` | pkg/aiven/topic/topic.go:149-166 | after an update the settings still differ exactly when the deletion retention does |
| `TopicManager.UnchangedAfterCreate` | pkg/aiven/topic/topic.go:98-116 | after a create nothing differs |
| `TopicManager.NextSyncIsQuietIff` | pkg/aiven/topic/topic.go:47-70 | after a sync that succeeded the next makes no call, except exactly when the topic existed with another deletion retention than the one asked for |
| `TopicManager.SatisfiesIff` | pkg/aiven/topic/topic.go:191-252 | a topic has all that the settings ask for exactly if the comparison sees no difference and cleanup policy and remote storage are as asked |
| `TopicManager.SyncSatisfiesIff` | pkg/aiven/topic/topic.go:47-179 | after a sync that succeeded the topic has all that the settings ask for exactly if it was created, or its deletion retention was right and either something compared differed or cleanup policy and remote storage were right |
| `TopicManager.RetentionNeverSettles` | pkg/aiven/topic/topic.go:149-166 | such a topic is updated at every sync whose look-up is answered, for any number of syncs and any failures, whether the updates succeed or not |
| `TopicManager.RetentionExample` | pkg/aiven/topic/topic.go:212-214 | one such topic: a hundred syncs make a hundred updates |
| `TopicManager.RequestsAreValid` | pkg/aiven/topic/topic.go:82-179 | at most one request, for the manager's own topic, with ratio in (0,1] and min-ISR at most replication; invalid settings send none, and are an error when the topic is missing |
| `TopicManager.SettingsDecide` | pkg/aiven/topic/topic.go:254-267 | requests can be built exactly from valid settings, create and update alike, and of two invalid ones the replication is reported |
| `TopicManager.SyncTopicFrame` | pkg/aiven/topic/topic.go:47-70 | no other topic and no ACL entry changes, success means the topic is there, a dry run changes nothing |
| `TopicManager.HoursExactIff` | pkg/aiven/topic/topic.go:273-284 | hours convert exactly to milliseconds up to 2562047 and for no larger 64-bit value |
| `TopicManager.HoursOverflow` | pkg/aiven/topic/topic.go:280-281 | what one hour more converts to |
| `TopicManager.HoursDistinguished` | pkg/aiven/topic/topic.go:273-300 | two hour values convert to the same milliseconds exactly when they normalise to the same setting |
| `Synchronizer.Synchronizer.constructor` | controllers/synchronizer.go:26-44 | both managers work on the same service and topic, with the topic's ACLs and its shared config |
| `Synchronizer.NewSynchronizer` | controllers/synchronizer.go:19-45 | the error of resolving the pool's service, or a new synchronizer for the topic |
| `Synchronizer.Synchronizer.Synchronize` | controllers/synchronizer.go:47-61 | the ACLs first, the topic only if that succeeded |
| `TopicReconciler.Reconciler.Process` | controllers/topic_controller.go:55-200 | result, service and the caller's config afterwards, on every path: failed lookups, deletion, hashing, skipping, wrong pool, synchronisation |
| `TopicReconciler.Reconciler.Reconcile` | controllers/topic_controller.go:205-294 | the stored resource, the service and the requeueing, for any outcome of the Get and the Update |
| `TopicReconciler.Cluster.Get` | controllers/topic_controller.go:229-235 | every Get decodes a config of its own |
| `TopicGuarantees.DeletionOnlyDeletes` | controllers/topic_controller.go:114-158 | a topic being deleted causes no create and no update, whatever fails |
| `TopicGuarantees.ProcessOwn` | controllers/topic_controller.go:55-200 | one call leaves all other topics and all their ACL entries as they were |
| `TopicGuarantees.DryRunSimulates` | controllers/topic_controller.go:114-188 | a dry run changes nothing at Aiven and returns what a real run from the same state returns when all its writes succeed |
| `TopicGuarantees.DeletionIsClean` | controllers/topic_controller.go:114-158 | outside dry runs, a final deletion has left no ACL entry and, if asked for, no topic |
| `TopicGuarantees.RolloutIsReal` | controllers/topic_controller.go:181-199 | outside dry runs, when a rollout is reported complete the grants are the wanted ones, the topic exists and passes the comparison save for the deletion retention; it has all settings of the spec exactly if that was attainable before |
| `TopicGuarantees.ErrorsAreScrubbed` | controllers/topic_controller.go:98-104 | no error that Process returns has a trigger word in it, in any letter case |
| `TopicGuarantees.StatusRevealsIff` | controllers/topic_controller.go:66-97 | the status has a trigger word in it exactly if the error's text has, or, for an error of Aiven's other than a response body, its message or its further information |
| `TopicGuarantees.FailuresShow` | controllers/topic_controller.go:107-188 | on every path on which Process fails, the returned error is clean and the status exactly as revealing as the error that ended the call |
| `TopicOutcomes.SkippedIff` | controllers/topic_controller.go:165-175 | exactly when a topic is skipped: the pool's name resolves, no deletion, the spec can be hashed and needs no sync |
| `TopicOutcomes.RequeueIff` | controllers/topic_controller.go:94-105 | an error asks for another attempt exactly if the pool's name resolved and either the topic is being deleted or the spec can be hashed, its pool is known and its name resolved again |
| `TopicOutcomes.FailureMeans` | controllers/topic_controller.go:66-105 | on every failing path the state, the returned text, the message and the errors by the error that ended the call, hash and time as before, and the time of the failure exactly if it is not to be repeated |
| `TopicOutcomes.SuccessMeans` | controllers/topic_controller.go:148-199 | the whole status after a success, for deletions with and without data and for rollouts, whose hash is that of the defaulted spec |
| `TopicOutcomes.ConfigMeans` | controllers/topic_controller.go:160-163 | the caller's config has its defaults filled in exactly if there is one, the pool's name resolved and the topic is not being deleted |
| `TopicOutcomes.ReconcileMeans` | controllers/topic_controller.go:229-285 | what is stored in every case, and a requeue exactly if the resource could not be read, Process asks for it, or the write after a success was not accepted |
| `TopicInterleaving.CallKeeps` | controllers/topic_controller.go:107-188 | each remote call of a reconcile, in any phase and however it ends, establishes what the next one relies on |
| `TopicInterleaving.CallOwn` | controllers/topic_controller.go:298-300 | and leaves the entries and the settings of all other topics alone |
| `TopicInterleaving.InterleavedReconcilesAreReal` | controllers/topic_controller.go:298-300 | for any number of reconciles of different topics, their remote calls in any order, with any failures, restarts with edited specs and outside changes in between: one that ends well has exactly the wanted grants and a topic that passes the comparison, or has cleaned up, and keeps it so; the topic has all settings exactly if they were attainable when that reconcile began |
| `TopicAlone.ProcessAlone` | controllers/topic_controller.go:107-199 | outside dry runs, Process is the run of that machine in which nobody else makes a call |
| `TopicAlone.DoneMeans` | controllers/topic_controller.go:114-199 | what the machine promises is exactly what `RolloutIsReal` and `DeletionIsClean` promise of one call of Process |
| `TopicRuns.HashProvenance` | controllers/topic_controller.go:60-105 | in every reachable state the stored hash is empty, initial, or that of a defaulted spec whose ACL and topic syncs both succeeded in one earlier reconcile |
| `TopicRuns.SyncedMatches` | controllers/topic_controller.go:181-199 | outside dry runs, that reconcile left Aiven with the wanted grants and a topic that passes the comparison, with all settings of the spec exactly if that was attainable before |
| `TopicRuns.TraceGoesOn` | controllers/topic_controller.go:205-294 | every event goes on from every reachable state, so runs assume nothing but a sound start |
| `TopicRuns.CompleteMeansNoErrors` | controllers/topic_controller.go:190-199 | in every reachable state "rollout complete" means no errors and no sync failure |
| `TopicRuns.StepGuards` | controllers/topic_controller.go:249-285 | outside dry runs, every write keeps the finalizer unless the pool that the spec names has been cleaned up |
| `TopicRuns.FinalizerGuards` | controllers/topic_controller.go:275-285 | over every run outside dry runs, the finalizer once stored goes only by a reconcile that has left the pool named by the spec then without the topic's entries and, if asked for, without the topic; for other pools see `TopicOrphans` |
| `TopicRuns.DeletingOnlyDeletes` | controllers/topic_controller.go:114-158 | every reconcile of a resource being deleted issues nothing but deletions |
| `TopicRuns.DeletingStays` | controllers/topic_controller.go:266-285 | and it stays one being deleted for as long as it is there |
| `TopicRuns.DefaultsAreStable` | controllers/topic_controller.go:160-165 | the defaults that get stored through a shared config, or do not, leave what is hashed unchanged |
| `TopicRuns.SuccessSettles` | controllers/topic_controller.go:190-199 | a complete reconcile whose status was stored leaves the hash of the stored spec |
| `TopicRuns.SettledIsQuiet` | controllers/topic_controller.go:165-175 | a settled topic is skipped exactly when its pool's name resolves, and never changed at Aiven |
| `TopicRuns.SettledStays` | controllers/topic_controller.go:253-285 | reconciles and other topics' reconciles keep it settled, whatever fails |
| `TopicRuns.QuietUntilTouched` | controllers/topic_controller.go:160-199 | from any history, after one complete reconcile whose write is stored no later one changes anything at Aiven until the user touches the resource |
| `TopicAlignment.ProcessLogged` | controllers/topic_controller.go:107-188 | a call of Process that makes no mutating call changes nothing at Aiven |
| `TopicAlignment.CompleteInLineIff` | controllers/topic_controller.go:181-199 | a complete reconcile whose write is stored leaves the topic settled; it then has all that its spec asks for exactly if it had before, for a dry run, or if that was attainable, for a real one |
| `TopicAlignment.InLineUntilTouched` | controllers/topic_controller.go:160-199 | and that stays so over every run until the user touches the resource, whatever fails and whatever others do |
| `TopicAlignment.RevertedInLineIff` | controllers/topic_controller.go:170-175 | between two moments with the same spec, edited in between or not, Aiven keeps matching it, or not matching it, if no reconcile in between made a mutating call |
| `TopicAlignment.InLineAfterRevert` | controllers/topic_controller.go:170-175 | so a topic that is settled again after its edits were taken back matches exactly if it did after its last complete reconcile |
| `TopicAlignment.RevertIsSettled` | controllers/topic_controller.go:60-105 | a reconcile that fails keeps the hash, so a spec that is edited and changed back after any failure counts as settled |
| `TopicAlignment.EqualHashIsSettled` | controllers/topic_controller.go:165-175 | an edited topic stays settled exactly if the hash of its spec is the same |
| `TopicProgress.SyncCompletesIff` | controllers/topic_controller.go:160-199 | if no call fails, a sync completes exactly if the spec can be hashed, needs a sync, is in a known pool, its user names can be generated, and its settings are valid or already those of the topic; in dry runs as well |
| `TopicProgress.DeletionFinishes` | controllers/topic_controller.go:114-158 | if no call fails, a deletion is final, in dry runs as well |
| `TopicProgress.OneGoodReconcile` | controllers/topic_controller.go:205-294 | over every run, once the user leaves a valid spec alone one reconcile without failures settles it, however many fail before and after, and Aiven has what the spec asks for exactly as `CompleteInLineIff` says of the one that completed |
| `TopicProgress.OneGoodDeletion` | controllers/topic_controller.go:205-294 | over every run, one reconcile without failures is enough for a deletion, and the resource goes only with a clean-up, dry runs aside |
| `TopicProgress.ForgottenIff` | controllers/topic_controller.go:107-112 | a reconcile leaves a valid spec unsettled without a requeue exactly if it was not settled and a look-up of the pool's name failed |
| `TopicLives.SkippedNeedNotMatch` | controllers/topic_controller.go:170-175 | a concrete life in which that leaves an unwanted ACL entry at Aiven with the topic skipped |
| `TopicLives.DryRunNeedNotMatch` | controllers/topic_controller.go:185-199 | a dry run that completes and settles a topic of which nothing is at Aiven |
| `TopicLives.PolicyNeedNotMatch` | controllers/topic_controller.go:181-199 | a topic that completes and settles with another cleanup policy than its spec asks for, without a call |
| `TopicOrphans.StrandedIffAbandoned` | controllers/topic_controller.go:249-285 | over every run: a pool is left with something of a topic whose resource is gone or elsewhere exactly if, while it has something of it, the user deletes a resource without finalizers or moves it, or a dry run lets it go, or the data is kept on purpose |
| `TopicOrphans.GoneLeavesNothing` | controllers/topic_controller.go:249-285 | a resource that is gone has left nothing in any pool if none was deleted without finalizers or moved after a reconcile had taken it up |
| `TopicOrphans.GoneWithReconcile` | controllers/topic_controller.go:275-285 | a reconcile that makes a resource go has left nothing, except exactly in those last two cases |
| `TopicOrphans.DryGoesIff` | controllers/topic_controller.go:114-158 | a dry run makes a resource go exactly if it is being deleted, the pool's name resolves, the entries can be listed, the write is stored and no other finalizer is left |
| `TopicLives.RejectedWriteStrands` | controllers/topic_controller.go:280-285 | a topic is created, its first write rejected, and it is deleted: its ACL entry stays |
| `TopicLives.DryRunStrands` | controllers/topic_controller.go:134-157 | a dry run lets go of a topic whose entry and data stay |
| `TopicLives.LookUpFailureIsForgotten` | controllers/topic_controller.go:107-112 | an edited topic whose pool fails to resolve once: unsettled, and not to be repeated |
| `TopicLives.StatusShowsToken` | controllers/topic_controller.go:70-74 | an answer with a trigger word in it that ends up in the status |
| `StreamReconciler.StreamACLs` | pkg/aiven/acl/acl.go:208-223 | nothing when deleting; otherwise exactly the stream's own ACL and one admin entry of its team per additional user |
| `StreamReconciler.Reconciler.Process` | controllers/stream_controller.go:137-234 | result and service on every path |
| `StreamReconciler.Reconciler.DeleteStream` | controllers/stream_controller.go:236-290 | result and service of the deletion: the ACLs, then each listed topic with the prefix, up to the first failure |
| `StreamReconciler.Reconciler.Reconcile` | controllers/stream_controller.go:49-135 | the stored resource, the service and the requeueing for any outcome of the Get and the Update |
| `StreamGuarantees.TopicsAreKept` | controllers/stream_controller.go:267-280 | however far the loop gets, only topics with the prefix are removed; all of the listed ones if it succeeds |
| `StreamGuarantees.DeletionIsExact` | controllers/stream_controller.go:236-290 | outside dry runs, whichever call fails, only entries of the wildcard and topics with the prefix are gone; all of them when the deletion is final |
| `StreamGuarantees.DeletionRestarts` | controllers/stream_controller.go:236-290 | outside dry runs, after an interrupted deletion a later one that is final leaves nothing of the stream and all else as before the first |
| `StreamGuarantees.DeletionFinishes` | controllers/stream_controller.go:236-290 | outside dry runs, if no call fails, a deletion in a known pool is final, from any state |
| `StreamGuarantees.EmptySyncCalls` | controllers/stream_controller.go:249-259 | a sync that wants nothing calls Aiven exactly when there is something to delete |
| `StreamGuarantees.DryRunCallsIff` | controllers/stream_controller.go:249-275 | a dry run never touches topics, and makes a mutating call exactly when a stream with ACL entries is deleted in a known pool that resolves and lists |
| `StreamGuarantees.FinalizerGuards` | controllers/stream_controller.go:113-126 | outside dry runs, a reconcile that drops the finalizer has left nothing of the stream in the pool its spec names |
| `StreamOutcomes.SkippedIff` | controllers/stream_controller.go:191-201 | exactly when a stream is skipped, and that it is then left without a call |
| `StreamOutcomes.RequeueIff` | controllers/stream_controller.go:177-184 | an error asks for another attempt exactly if there was work to do, the pool is known and its name resolved |
| `StreamOutcomes.FailureMeans` | controllers/stream_controller.go:148-184 | on every failing path the state, the returned text, the message and the errors by the error that ended the call, hash and time as before |
| `StreamOutcomes.SuccessMeans` | controllers/stream_controller.go:225-289 | the whole status after a success, deletion or rollout, whose hash is that of the spec |
| `StreamOutcomes.UnpreparedIsQuiet` | controllers/stream_controller.go:203-211 | an unknown pool, or one that does not resolve, keeps a stream from being touched |
| `StreamOutcomes.DeletionsInOrder` | controllers/stream_controller.go:267-280 | listed topics with the prefix are deleted in order up to the first failure, which the error names; one that has gone in the meantime is such a failure |
| `StreamOutcomes.ReconcileMeans` | controllers/stream_controller.go:71-126 | what is stored in every case, and exactly when the reconcile is repeated |
| `StreamSettling.NextIsSkipped` | controllers/stream_controller.go:196-201 | after a success the stream with its new status is skipped without a call |
| `StreamSettling.QuietUntilTouched` | controllers/stream_controller.go:191-233 | over every run, after one complete and stored reconcile no later one changes the resource or Aiven until the user touches the resource |
| `StreamSettling.HashProvenance` | controllers/stream_controller.go:225-229 | in every reachable state the stored hash is empty, initial, or that of a spec for which a reconcile ran to its end |
| `StreamRuns.StepGuardsIff` | controllers/stream_controller.go:104-126 | over every event, a stream without finalizer gets it exactly from a reconcile that completes and is stored |
| `StreamRuns.GuardedMeansComplete` | controllers/stream_controller.go:113-126 | over every run, a finalizer that is there was put there by a reconcile that completed |
| `StreamRuns.CompleteIsExact` | controllers/stream_controller.go:203-233 | outside dry runs, such a reconcile left the stream's own grant and an admin's for each additional user of its team, and no other on the wildcard |
| `StreamRuns.TraceGoesOn` | controllers/stream_controller.go:49-135 | every event goes on from every reachable state, so runs assume nothing but a sound start |
| `StreamOrphans.GoneWithReconcile` | controllers/stream_controller.go:113-126 | a reconcile that makes the resource go has left nothing of the stream, except exactly its topics in a dry run |
| `StreamOrphans.StrandedIffAbandoned` | controllers/stream_controller.go:113-126 | over every run: a pool is left with something of a stream whose resource is gone or elsewhere exactly if the user deletes a resource without finalizers, or moves it, while the pool has something of it, or a dry run lets go of a stream with topics |
| `StreamOrphans.GoneLeavesNothing` | controllers/stream_controller.go:113-126 | outside dry runs, a resource that is gone has left nothing in any pool if none was deleted without finalizers or moved after a reconcile had taken it up or its application had been at work |
| `StreamLives.FailedReconcileStrands` | controllers/stream_controller.go:104-119 | a stream is created, its first reconcile fails after granting one of two entries, and it is deleted: the entry stays |
| `StreamLives.DryRunDeletes` | controllers/stream_controller.go:249-256 | a dry run that deletes an ACL entry |
| `Scrubbing.RedactedRevealsNothing` | pkg/utils/cred_strip.go:25 | the replacement text itself has no trigger word in it |
| `Scrubbing.RevealsMeans` | pkg/utils/cred_strip.go:8-15 | the six trigger words |
| `Scrubbing.JoinRevealsNothing` | controllers/topic_controller.go:103 | joining state and message with ": " makes no trigger word appear |
| `Scrubbing.JoinRevealsIff` | controllers/topic_controller.go:89 | a text joined with ": " has a trigger word in it exactly if one of its parts has |
| `Scrubbing.ScrubbedRevealsNothing` | pkg/utils/cred_strip.go:20-28 | the text made of state and scrubbed error has no trigger word in any letter case |
| `Scrubbing.ScrubbingIsIdempotent` | pkg/utils/cred_strip.go:20-28 | scrubbing twice is scrubbing once |
| `TxProducer.Producer.ProduceTx` | pkg/kafka/producer/producer.go:100-152 | result and client after begin, sends, at most three commits and an abort, on every path |
| `TxProducer.Producer.Recreate` | pkg/kafka/producer/producer.go:70-81 | a new client without open transaction, or the old one unchanged if none can be made |
| `TxProducer.ProduceTxAllOrNothing` | pkg/kafka/producer/producer.go:100-152 | on success all messages are committed in order, on an error none is, and only a fatal error can leave a transaction open |
| `TxProducer.ProduceTxFollows` | pkg/kafka/producer/producer.go:100-152 | the calls are accepted by the protocol automaton: one begin, sends in order up to a refused one, commits after all sends, one abort at most, nothing after it |
| `TxProducer.ProduceTxShape` | pkg/kafka/producer/producer.go:117-148 | the same by position: a begin is first, an abort last, a commit only directly behind the successful sends of all messages, at most three, and an abort after commits only after three |
| `TxProducer.ProducedIsLast` | pkg/kafka/producer/producer.go:115-136 | partition and offset returned are the client's answer to the last message |
| `TxProducer.NothingProduced` | pkg/kafka/producer/producer.go:115-116 | without messages they are zero |
| `TxProducer.ResultMeans` | pkg/kafka/producer/producer.go:100-152 | an error is fatal exactly if no call was made because of the client's flags, the last call was a begin or a commit that left such flags, or it was a refused abort; any other carries the text of the refused begin, send or commit |
| `Canary.Canary.ProduceTx` | cmd/canary/main.go:336-364 | producer and context after one tick: five messages, cancelled when unauthorised, recreated when fatal |
| `Canary.TickFollows` | cmd/canary/main.go:336-364 | the calls of a tick follow the protocol, with at most one begin |
| `Canary.BeginsWhileOpenIff` | pkg/kafka/producer/producer.go:101-106 | exactly when a tick begins a transaction while one is open |
| `Canary.TickCloses` | cmd/canary/main.go:353-358 | only a fatal error without a new client can leave a transaction open, and the topic grows by the messages of a successful tick only |
| `Canary.RecreatedIff` | cmd/canary/main.go:353-358 | after a fatal error and a successful Recreate, and in no other case, the client is replaced, by one that is ready and without a transaction |
| `Canary.CancelledIff` | cmd/canary/main.go:349-352 | the canary is cancelled exactly by an error whose whole text is one of those, and then for good |
| `Canary.RunsFollow` | cmd/canary/main.go:336-364 | the calls of every run are those of its ticks, one after the other, each following the protocol |
| `Canary.RecreatedRunsAreClean` | cmd/canary/main.go:336-364 | over every run in which each fatal error is followed by a successful Recreate no begin happens while a transaction is open, and the topic grows by exactly what was reported, in order |
| `Canary.FailedRecreateBeginsWhileOpen` | cmd/canary/main.go:355-357 | a run of two ticks with failing Recreate that does begin while open |
| `Consumer.Consumer.ConsumeClaim` | pkg/kafka/consumer/consumer.go:50-80 | calls, marks and the callback's state are those of the step-by-step session |
| `Consumer.Callback.Callback` | pkg/canary/kafka/consumer.go:23-41 | a parseable message goes on the channel, any other is an error, never a retry |
| `Consumer.ConsumeIsSound` | pkg/kafka/consumer/consumer.go:61-78 | each message is marked once, in claim order, right after its final answer; all calls for one come before any for the next; holds wherever the session ends |
| `Consumer.ChannelGetsCalls` | pkg/kafka/consumer/consumer.go:67 | the callback is called exactly as recorded, and the channel gets what it sends for these calls |
| `Consumer.SessionsCompose` | pkg/kafka/consumer/consumer.go:61-78 | a later session from behind the last mark goes on where the first ended: no message is marked twice or left out in between |
| `Consumer.CanaryCallsOnce` | pkg/canary/kafka/consumer.go:23-41 | with the canary's callback there is one call per message, and two steps per message suffice |
| `Consumer.CanarySendsParseable` | pkg/canary/kafka/consumer.go:23-41 | what the canary sends is one entry per parseable message, in order, with its offset, partition and time |
| `Consumer.CanaryAnswers` | pkg/canary/kafka/consumer.go:23-41 | the canary never asks for a retry and reports an error exactly for what it cannot parse |
| `Consumer.CanaryChannel` | pkg/canary/kafka/consumer.go:23-41 | at the end of a claim every message was called and marked once, and the channel has exactly the parseable ones |
| `LogPagination.FetchLogLines` | scripts/kafka-recopy-analysis.py:88-125 | terminates, and yields the entries of all answers in their order: answer by answer, stream by stream |
| `LogPagination.YieldedIsFetch` | scripts/kafka-recopy-analysis.py:99-125 | these are the entries of all pages, however the server splits them over streams |
| `LogPagination.YieldedSortedIff` | scripts/kafka-recopy-analysis.py:95-125 | they come in the order of time exactly if those of each answer do |
| `LogPagination.YieldedOrSkipped` | scripts/kafka-recopy-analysis.py:99-125 | each entry of the window is either yielded once or skipped once |
| `LogPagination.SkippedAtCuts` | scripts/kafka-recopy-analysis.py:125 | the timestamps of the skipped entries are exactly those at which a page of the run ends inside a group, for any positive limit |
| `LogPagination.CutExample` | scripts/kafka-recopy-analysis.py:125 | two entries with one timestamp and a limit of one: the second is never yielded |
| `LogPagination.SkippedNoneIff` | scripts/kafka-recopy-analysis.py:125 | nothing is skipped exactly when no page ends inside a group of equal timestamps |
| `LogPagination.FetchIsCompleteIff` | scripts/kafka-recopy-analysis.py:99-125 | no entry is yielded twice, and the whole window is yielded exactly when no page cuts a group |
| `LogPagination.DistinctTimesAreComplete` | scripts/kafka-recopy-analysis.py:99-125 | with different timestamps and a positive limit no page cuts a group |
| `TopicMetrics.TopicTeam` | pkg/metrics/collectors/topic.go:118-129 | the namespace of the first cluster topic with the name, else what stands before the first dot, else nothing |
| `TopicMetrics.Report` | pkg/metrics/collectors/topic.go:60-79 | for every key the number of its topics, in whatever order the pools are visited, and no key without a topic |
| `TopicMetrics.TeamIsNamespace` | pkg/metrics/collectors/topic.go:118-129 | a topic named after a dot-free namespace is attributed to it whether or not it is still in the cluster |
| `TopicMetrics.TeamMeans` | pkg/metrics/collectors/topic.go:118-129 | the team of a topic in the cluster is the namespace of the first such resource, and another without a dot has none |
| `TopicMetrics.CountsMean` | pkg/metrics/collectors/topic.go:60-79 | a count is, for the cluster, the number of topics in the team's namespace that name the pool, and for Aiven that of the pool's listed topics that are the team's |
| `TopicMetrics.CountsAreConserved` | pkg/metrics/collectors/topic.go:60-79 | the cluster's counts add up to the number of its topics, and those of a pool at Aiven to its listed topics |
| `TopicMetrics.AivenCountsIgnoreCluster` | pkg/metrics/collectors/topic.go:70-79 | so the counts at Aiven do not depend on what is left in the cluster |

## Left out

- HTTP, the Kubernetes client, the Kafka network protocol, TLS, flags, logging and Prometheus; `ObserveAivenLatency` is a call of its function.
- The resource library, the Aiven client and the Kafka client: only the assumptions above.
- `TopicRuns.Step`: in the lives of one topic a reconcile is one step; that other calls come in between is the subject of `TopicInterleaving`, where dry runs are left out.
- `StreamRuns.Step`: in the lives of a stream a reconcile is one step, and nobody comes in between.
- `TopicProgress.OneGoodReconcile`: needs to know when a sync is needed, so there the library is assumed to decide it by the stored hash alone, and hashes not to be empty.
- `TopicAlignment.InLineAfterRevert`: if a reconcile of an edited spec did make mutating calls, nothing is said, because they may or may not have to do with what the old spec asks for.
- `AclManager.NO_ID`: the error texts that print an ACL entry or settings carry no printed values, and Aiven's own messages for 404 and 409 are stand-ins.
- `TopicManager.Manager.Synchronize`: Aiven is taken to return every configuration value that is compared; a missing one would be a nil dereference. Settings are unbounded integers except where hours are converted.
- `TopicManager.PercentToRatio`: ratios are real numbers, and how an int-or-string is parsed is not modelled beyond number, percentage or malformed.
- Tags of create and update requests (`created-by`, `touched-at`): they are neither compared nor read back.
- Time stamps: one opaque text `now` for each reconcile.
- `TopicGuarantees.ErrorsAreScrubbed`: speaks of the returned error; for the status see `TopicGuarantees.StatusRevealsIff`.
- The same scrubbing in the Stream reconciler's `fail`, which is the same code.
- `Consumer.Consumer.ConsumeClaim`: a callback may ask for retries for ever, so a session is cut off after any given number of calls and marks; that it finishes is proved for the canary's callback only.
- `LogPagination.FetchLogLines`: entries are returned in a list where the generator yields their lines one at a time, and the server's content does not change during a fetch.
- `TxProducer.SyncProducer`: closing the old client and the waiting time between commits have no effect in the model; the partition and offset of no messages are zero, as in the code.
- `TopicMetrics.Report`: the two listings are inputs, and their errors, which end the report, are left out.
- The adapters, `FromKafkaACL`, the test matchers and mocks, `Produce` outside transactions, the other scripts and collectors: field copying and I/O.
