# silence-operator: the reconciliation protocol and what its results mean

The operator keeps two stores in step: Kubernetes holds `Silence` objects (v1alpha1, cluster-scoped; v1alpha2,
namespaced), Alertmanager holds silences, one store per tenant. An object's silence is found again by a comment made
from the object's name, and a finalizer keeps the object until its silence is gone. This project models that protocol,
the code that carries it out, and the pure computations it rests on, and proves what they promise.

## The files

| file | content |
|---|---|
| `Wrappers`, `Types`, `Muting` | options and results; objects, silences, matchers; which alerts matchers mute |
| `AlertStore` | Alertmanager: stores by tenant and ID, lookup by comment, the effect of POST and DELETE |
| `SyncPlan`, `SyncRefinement` | the decision of `SyncSilence`, refined to an update of a map (tenant, comment) -> silence |
| `Listing`, `MockServer` | the client's reading of a listing; the in-memory server of the controller tests, as a class |
| `Protocol` | both reconcilers, API server, cache, Alertmanager, users and clock as a labelled transition system |
| `ProtocolSafety`, `NoOrphans` | invariants of every step, no orphan and no duplicate over every run, and the exact limits of that |
| `Finalization` | deletion is bounded and completes; the legacy finalizer is handed over without a gap |
| `Settling` | every sync of every run ends with exactly what it asked for in Alertmanager |
| `Interleaving` | serializability of concurrent reconciles; isolation of tenants |
| `NonInterference` | what happens to one object in any run does not depend on the steps of others |
| `Remote`, `Controllers` | client, service and reconcilers as classes; each remote call is a protocol step |
| `Operator` | the protocol with the operator's own comments, tenants and conversions |
| `Calendar`, `TimeFormat`, `Duration`, `SilenceTimes` | Gregorian dates, the annotation formats, the duration language, start and end of a silence |
| `Comments`, `Tenancy`, `Conversion`, `Migration` | comments and when they collide, tenants, matchers, the migration script |

## How the protocol is modelled

Every remote call of a reconciler is a step of its own: reading the object, updating it, reading the clock, listing
silences, POST, DELETE. Between any two, users create, edit and delete objects, other workers and other clients of
Alertmanager act, time passes, and expired silences are collected. A call may fail without effect, or take effect and
lose its answer; a worker may crash anywhere and start again. Reads come from a cache: any stored version of the object
not older than what the cache has served before. An update succeeds only if the version it was read at is still the
current one and unchanged. Deleting an object with finalizers marks it; it disappears with its last finalizer.

The classes of `Controllers` are written as the code is, call by call. The class `Remote.World` is the other end of
their calls: it lets everybody else act, then takes one protocol step or fails, and keeps the log of all steps. So each
execution of a reconciler extends a run of the transition system, whose theorems then apply to it
(`Controllers.NoOrphanInAnyWorld`); and a reconcile that meets no failure, no stale read and no interference is an
update or a removal in the map from (tenant, comment) to silences (`Controllers.ReconcileUpdatesTheMap`).

## Hypotheses of the safety theorems

- Comments are distinct among the operator's objects. They are not in general: `Comments` says exactly when two collide,
  and `Operator.PlainKeysAreDistinct` gives a condition on names. Serializability needs less: objects with one comment
  must stay in different tenants; so does non-interference.
- Users leave the operator's finalizer in place and do not edit an object into another tenant. An object deleted and
  created anew may change tenant. `NoOrphans.EditsExactly` shows both rules to be necessary.
- A DELETE is answered other than 200 only when its silence is not live any more. Otherwise the code takes the answer
  for success, since it wraps an error that is nil. `NoOrphans.SwallowedAnswerExactly` shows this to be the exact
  condition and `NoOrphans.SwallowedAnswerOrphans` gives, for every object that asks for a silence, a run that leaves an
  orphan.
- A listing is answered other than 200 with an empty list only when there is nothing to be found. The code does not look
  at the status of a listing, and takes such an answer for the truth. `NoOrphans.MissedListingExactly` and
  `NoOrphans.MissedListingDuplicatesExactly` show this to be the exact condition for finalizing and for syncing;
  `NoOrphans.MissedListingOrphans` is the run that leaves an orphan. Any other listing is true, or the call fails.
- These two hypotheses are about the answers one object's own worker gets; that object is then safe, whatever the others
  are told (`ProtocolSafety.KeySafeOnEveryRun`). The invariants called `Base` need neither.
- One worker per object. Nobody else stores silences under a comment of the operator's objects; anybody may remove them,
  and others may do with silences of their own what they like. Nor does anybody else store a silence under an ID the
  operator's silences had. At the start there are no silences under these comments.
- A request takes effect while its call is pending or never.
- The operator's clock is not ahead of Alertmanager's. In `SyncRefinement` it may be behind; in the protocol they are one,
  read at the time of each step.
- Alertmanager keeps the matchers and the end it is sent, where a theorem says what is then muted or in the map
  (`SyncRefinement.KeepsEnd`, `SyncRefinement.Faithful`). `SyncRefinement.SyncLeaves`, `SyncRefinement.NextPlan` and
  `SyncRefinement.QuiescenceExactly` hold whatever it keeps.

## Where the code differs from what is written about it

The model follows the code.

- `SilenceEndsAt` is documented for dates only; it tries RFC 3339 date-times first. `SilenceTimes.FormatOrderIsIrrelevant`
  shows the order to be harmless.
- A v1alpha2 object's `startsAt` can be edited, but `updateNeeded` looks at matchers and end only, so a new start alone is
  never written: a silence moved forward from next week to now stays pending (`SyncRefinement.StartEditIsLost`).
  `SyncRefinement.SyncMutesExactly` says exactly when a sync makes an object's alerts muted as asked for.
- `updateNeeded` compares ends, and matchers in order, nil apart from empty. If Alertmanager returned either in any other
  form, every sync would write the silence anew (`SyncRefinement.QuiescenceExactly`).
- `DeleteSilenceByID` means to report an answer other than 200 and reports success; `ListSilences` does not look.
- The validation rule "startsAt must be before endsAt" compares only times that are both given, and the pattern of
  durations accepts zero. So an object that ends before it was created is admitted, and so is one of no duration
  (`SilenceTimes.AdmittedButEmpty`); `SilenceTimes.AdmittedWindow` says exactly when a window is not empty.
- `MIGRATION.md` promises that matchers are converted automatically. The loop that converts them runs in a subshell, so
  what it has accumulated is lost, and the object is built with an empty list (`Migration.MigrateMatchers`,
  `Migration.ShippedMatchersExactly`). The theorems on preserved meaning are about the list the loop computes.
- The conversion itself loses trailing newlines of names and values; `Migration.MatchersSurviveExactly` shows that it
  preserves all other matchers and only those. (Its one other exception, a regex whose `isEqual` is null, is malformed
  input: the field is not nullable, so the API server does not hand out such an object.)
- A silence whose end is the present instant is neither created nor deleted (`SyncRefinement.SyncAtTheEnd`).

## Model

| member | source | states |
|---|---|---|
| ProtocolSafety.BaseStep | internal/controller/silence_v2_controller.go:66-111 | every step of a worker or user keeps what the worker may rely on: its object is a stored version, finalizing or guarded as its place in the code says, and IDs it will write to belong to its comment |
| ProtocolSafety.StoreStep | pkg/service/silence.go:42-95 | every step of one key leaves all that concerns other comments unchanged, and never gives an ID to another comment |
| ProtocolSafety.BaseInvStep | internal/controller/silence_controller.go:63-125 | the invariants that need no hypothesis are kept by every step of the whole system, for all keys at once |
| ProtocolSafety.BaseOnEveryRun | cmd/main.go:252-266 | they hold in every state of every run of both controllers |
| ProtocolSafety.GetSafe | internal/controller/silence_v2_controller.go:72-76 | a stale cached read keeps safety |
| ProtocolSafety.UpdateSafe | internal/controller/silence_v2_controller.go:88-108 | adding, cleaning up or removing a finalizer, with the answer lost or not, keeps safety, because of the version check |
| ProtocolSafety.PostSafe | pkg/service/silence.go:51-58 | a POST that took effect leaves one live silence under the comment, and that one guarded |
| ProtocolSafety.DeleteSafe | pkg/alertmanager/alertmanager.go:176-201 | a DELETE honestly answered, or whose answer is lost, keeps safety |
| ProtocolSafety.UserSafe | internal/controller/silence_v2_controller.go:78-110 | creating, editing and deleting objects within the two rules keeps safety |
| ProtocolSafety.SafeKeyStep | internal/controller/silence_v2_controller.go:66-153 | a step of anybody keeps a key safe (no orphan, at most one live silence, the guards of its worker) if the key's own answers are honest |
| ProtocolSafety.SafeInvStep | internal/controller/silence_v2_controller.go:66-153 | every honest step keeps all keys safe |
| ProtocolSafety.KeySafeOnEveryRun | internal/controller/silence_v2_controller.go:66-153 | a key is safe in every state of every run in which its own answers are honest, whatever other workers are told |
| ProtocolSafety.SafeOnEveryRun | internal/controller/silence_v2_controller.go:66-153 | all keys are safe in every state of every honest run |
| NoOrphans.NoOrphanOnEveryRun | internal/controller/silence_v2_controller.go:78-110 | over every honest run each live silence under an operator comment has its object, with finalizer and in the silence's tenant, and is the only one |
| NoOrphans.EditsExactly | internal/controller/silence_v2_controller.go:122-141 | replacing the object of a live silence leaves no orphan if and only if it keeps the finalizer and the silence's tenant |
| NoOrphans.SwallowedAnswerExactly | pkg/alertmanager/alertmanager.go:196-198 | finalizing after a DELETE leaves no orphan if and only if the answer did not hide that the silence is still live |
| NoOrphans.SwallowedAnswerOrphans | pkg/alertmanager/alertmanager.go:196-198 | for every object that asks for a silence there is a run with no other failure than one swallowed answer that ends with an orphan |
| NoOrphans.MissedListingExactly | pkg/alertmanager/alertmanager.go:147-173 | finalizing after a listing refused with an empty list leaves no orphan if and only if the key had no live silence |
| NoOrphans.MissedListingDuplicatesExactly | pkg/alertmanager/alertmanager.go:147-173 | syncing after such a listing leaves no second live silence under a comment if and only if the key had none |
| NoOrphans.MissedListingOrphans | pkg/alertmanager/alertmanager.go:147-173 | for every object that asks for a silence there is a run with no other failure than one such listing, and without a DELETE, that ends with an orphan |
| Finalization.DrainingBegins | internal/controller/silence_v2_controller.go:72-78 | the first up-to-date read of a deleted object starts its draining |
| Finalization.DrainStep | internal/controller/silence_controller.go:77-105 | while draining, no step of the key adds a live silence or an own finalizer, and every effective worker step removes one |
| Finalization.WorkStep | internal/controller/silence_controller.go:77-105 | the same for the steps of everybody: work left never grows, and shrinks with every effective step |
| Finalization.DeletionIsBounded | internal/controller/silence_controller.go:77-105 | along any run, effective steps taken plus work left are at most the work there was at first |
| Finalization.DeletionCompletes | internal/controller/silence_controller.go:77-105 | from any safe state, crashed anywhere, there is an undisturbed reconcile that removes a deleted object without third-party finalizers and leaves none of its silences live |
| Finalization.DeletingStep | internal/controller/silence_controller.go:77-105 | whatever true answer it gets, a step of a reconcile of a deleted object in which nothing goes wrong leads to the next stage: list, delete, remove the finalizer, remove the legacy one, done |
| Finalization.DeletionClearsExactly | internal/controller/silence_controller.go:77-105 | undisturbed, from any store with at most one live silence of the object: every reconcile in which nothing goes wrong has at most four steps after its read; at its end the object is gone, and no silence is live if and only if the object carried the operator's own finalizer or none was live before |
| Finalization.FinishingBegins | internal/controller/silence_v2_controller.go:72-78 | any read, stale or not, of a version marked for deletion without third-party finalizers begins a finalization |
| Finalization.FinishingStep | internal/controller/silence_controller.go:77-105 | a step of it that does not go wrong leads to a later stage; edits and deletions by users do not disturb it |
| Finalization.EveryDeletionCompletes | internal/controller/silence_controller.go:77-105 | a finalization in which nothing goes wrong for the key takes at most four steps of its worker, with the clock, other workers, users and other clients acting in between as they like; whenever it is through, the object is gone and none of its silences is live |
| Finalization.HandOverStep | internal/controller/silence_controller.go:107-139 | a step drops the legacy finalizer of a live object only with the new one stored before and after |
| Finalization.HandOverOnEveryRun | internal/controller/silence_controller.go:107-139 | an object that starts with either finalizer carries one in every state of every run |
| Finalization.LegacyOnlySkipsAlertmanager | internal/controller/silence_controller.go:77-101 | a deleted object with only the legacy finalizer goes away with the Alertmanager store unchanged |
| Interleaving.StoreAsEdit | pkg/service/silence.go:42-95 | every step is an edit of few slots, which it empties and fills independently of the rest of the store |
| Interleaving.KeysCommute | pkg/service/silence.go:42-95 | a step that follows one of a key with another comment or tenant could have come first: same decisions, same store |
| Interleaving.StepsCommute | cmd/main.go:252-266 | the same for states of the whole system, when both controllers act |
| Interleaving.Overtake | cmd/main.go:252-266 | a step may be taken before any number of steps of other keys, with the same result |
| Interleaving.OneKeyFirst | cmd/main.go:252-266 | all steps of one key may be taken first |
| Interleaving.EveryInterleavingIsSerial | cmd/main.go:252-266 | every interleaving of calls and user actions on different objects can be replayed one object after the other, in any order of objects, and ends in the very same state, if objects with one comment live in different tenants |
| NonInterference.OtherKeysStep | pkg/service/silence.go:42-95 | a step of another object's worker changes nothing that concerns this one |
| NonInterference.OwnStep | pkg/service/silence.go:42-95 | a step of the object's own worker can be taken, with the same decision and effect, wherever its own silences are the same |
| NonInterference.NonInterference | pkg/service/silence.go:42-95 | from every run, with clock ticks, collections and foreign clients in between, the steps of others can be left out: what remains is a run, and it ends with the same object, worker, clock and silences of the object |
| Interleaving.DistinctCommentsNeedNoHome | pkg/alertmanager/alertmanager.go:203-208 | with distinct comments that condition on tenants holds of every run by itself |
| Interleaving.StepStaysInTenant | pkg/alertmanager/http.go:17-26 | a step of a key changes the store of no tenant but the one its worker's object version resolves to |
| Interleaving.TenantIsolation | pkg/alertmanager/http.go:17-26 | over any run in which no object resolves to a tenant and no other client acts in it, its store is unchanged, whatever happens in other tenants |
| Operator.PlainKeysAreDistinct | pkg/alertmanager/alertmanager.go:203-208 | namespaces without hyphens and no cluster-scoped name that spells out a namespaced one make comments distinct |
| Operator.OperatorIsTagged | internal/controller/silence_v2_controller.go:155-176 | every silence converted from an object carries that object's comment and the operator's createdBy |
| Conversion.V1SilenceExactly | internal/controller/silence_controller.go:183-213 | a v1alpha1 object gets a silence exactly if its annotation can be read; comment and creator are the operator's, it starts at creation, ends as the annotation says or after a hundred years, has as many matchers and mutes exactly what these promise |
| Conversion.V2SilenceExactly | internal/controller/silence_v2_controller.go:155-176 | a v1alpha2 object gets a silence exactly if all match types are supported and nothing is wrong with its times; start and end are those given, or creation, or the start plus the duration, or the end v1alpha1 gives; it mutes exactly what the match types promise |
| Operator.OperatorLeavesNoOrphan | internal/controller/silence_v2_controller.go:66-153 | no orphan and no duplicate of a key over every run in which its own answers are honest, for the comments, tenants and conversions of the operator |
| Operator.OperatorKeepsOut | pkg/tenancy/tenancy.go:37-58 | the same for a tenant that no label, default or client setting leads to |
| SyncRefinement.SyncLeaves | pkg/service/silence.go:42-80 | whatever Alertmanager makes of the silence it is sent: from then on the name holds what was found and left alone, or what was kept, while that lasts, and every other (tenant, comment) is as it was |
| SyncRefinement.SyncRefines | pkg/service/silence.go:42-80 | if the end is kept, from any store unique at the name, at every later time: the name holds one silence with the desired matchers and end while it lasts and nothing afterwards; its start is that of a silence found with these matchers and this end, else the one sent; every other (tenant, comment) is as it was |
| SyncRefinement.DeleteRefines | pkg/service/silence.go:82-95 | a deletion by comment empties the name for good and leaves every other as it was |
| SyncRefinement.SyncAtTheEnd | pkg/service/silence.go:51-67 | when the end is now, nothing is created or deleted, and there is an update exactly if a silence was found |
| SyncRefinement.NextPlan | pkg/service/silence.go:51-79 | what the next sync finds and decides, exactly: it finds what was left if that is live; then it deletes what is over, leaves alone an echo of what was asked for and updates anything else; finding nothing, it creates what is not over |
| SyncRefinement.SyncThenNothing | pkg/service/silence.go:69-79 | if Alertmanager echoes matchers and end, a second sync writes nothing if and only if the silence does not end between its look at the clock and the listing |
| SyncRefinement.Quiescence | pkg/service/silence.go:69-79 | if Alertmanager echoes matchers and end, any number of further syncs of the same silence write nothing, as long as it does not end between such a sync's look at the clock and its listing |
| SyncRefinement.QuiescenceExactly | pkg/service/silence.go:97-101 | while the silence lasts, the number of writes of further syncs is zero if the end and the matchers, in order and with nil apart from empty, are echoed, and otherwise the number of syncs |
| SyncRefinement.SyncKeepsStore | pkg/service/silence.go:42-80 | a sync keeps the store valid and the name unique, at every later time |
| SyncRefinement.NilMatchersExactly | pkg/service/silence.go:97-101 | with a server that answers null matchers with an empty list, each further sync writes a silence without matchers, and none writes any other |
| SyncRefinement.SyncMutesExactly | pkg/service/silence.go:69-101 | after a sync an alert the silence matches is muted at a time exactly as asked for, from start to end, if and only if the sync did not leave a silence as it was whose start lies on the other side of that time than the desired one; no other alert is muted |
| SyncRefinement.StartEditIsLost | pkg/service/silence.go:97-101 | for every silence active now there is a store, with the same silence due later, in which the sync does nothing and nothing is muted until then |
| SyncRefinement.CalmSyncUpdates | pkg/service/silence.go:42-80 | the sync of the service class, undisturbed, sets the map at its name, to the silence sent or to one found with the same matchers and end |
| Settling.EverySyncSettles | pkg/service/silence.go:42-80 | the last step of a sync that does not fail, in any safe state of the system, leaves the name with one silence of the desired matchers and end while it lasts and nothing afterwards, and the comment unused in other tenants |
| Settling.SyncsSettleOnEveryRun | pkg/service/silence.go:42-80 | so every sync of every run ends, with the clock, other workers, users and other clients acting between its calls, if the key's own answers are honest |
| SyncRefinement.CalmDeleteUpdates | pkg/service/silence.go:82-95 | its deletion, undisturbed, empties the map at the name |
| AlertStore.PostFrame | pkg/alertmanager/alertmanager.go:83-119 | a POST keeps the store valid and leaves every other comment as it was |
| AlertStore.DropFrame | pkg/alertmanager/alertmanager.go:176-201 | so does a DELETE |
| Listing.Filter | pkg/alertmanager/alertmanager.go:166-171 | the loop keeps the silences with a status other than expired, in order |
| Listing.Search | pkg/alertmanager/alertmanager.go:74-78 | the loop finds the first silence with the comment, for deletion also with the operator's createdBy |
| Listing.FilteredListingAnswers | pkg/alertmanager/alertmanager.go:136-174 | filter and first match of any true listing answer the lookup by comment in the store, for every comment |
| Listing.FilterKeepsOrder | pkg/alertmanager/alertmanager.go:166-171 | filtering two parts of an answer and joining the results is filtering the whole |
| Listing.FilterOne | pkg/alertmanager/alertmanager.go:167-169 | a silence is kept exactly if it has a status other than "expired" |
| Listing.FirstIsFirst | pkg/alertmanager/alertmanager.go:74-78 | the silence found has none with the comment, and for deletion the creator, before it |
| Listing.OrderDoesNotMatter | pkg/alertmanager/alertmanager.go:68-81 | with at most one live silence under the comment, listings in different orders give the same answer |
| Remote.World.Get | internal/controller/silence_v2_controller.go:72-76 | a read takes the reconciler to the branch the code takes for the version read, or fails |
| Remote.World.Update | internal/controller/silence_v2_controller.go:88-108 | an update at the current version stores the object or removes it with its last finalizer; at another version it fails |
| Remote.World.HttpGet | pkg/alertmanager/alertmanager.go:136-164 | a listing that is true of the tenant's store at some time during the call, an empty one that need not be, or a failure |
| Remote.World.HttpPost | pkg/alertmanager/alertmanager.go:83-112 | the effect of the POST, once, with or without an answer, or a failure |
| Remote.World.HttpDelete | pkg/alertmanager/alertmanager.go:176-201 | the effect of the DELETE, an answer other than 200 without it, or a failure |
| Controllers.Alertmanager.ListSilences | pkg/alertmanager/alertmanager.go:136-174 | the filtered listing answers lookups in the store, unless it is empty and the listing was refused; the worker goes on as the answer says |
| Controllers.Alertmanager.GetSilenceByComment | pkg/alertmanager/alertmanager.go:68-81 | a live silence with the comment as stored, a failure, or not-found; undisturbed, not-found only if there is none |
| Controllers.Alertmanager.CreateSilence | pkg/alertmanager/alertmanager.go:83-112 | an error exactly if the POST failed; undisturbed, the silence is stored under an ID available to its comment |
| Controllers.Alertmanager.UpdateSilence | pkg/alertmanager/alertmanager.go:114-119 | undisturbed, it takes the place of the one with the ID; an empty ID is an error without a call |
| Controllers.Alertmanager.DeleteSilenceByID | pkg/alertmanager/alertmanager.go:176-201 | success unless the transport fails, so also for an answer other than 200; undisturbed, the silence is gone |
| Controllers.Alertmanager.DeleteSilenceByComment | pkg/alertmanager/alertmanager.go:121-134 | undisturbed, the first own silence with the comment is gone, not-found if there is none |
| Controllers.SilenceService.SyncSilence | pkg/service/silence.go:42-80 | the worker ends its reconcile; there is an error exactly if a call failed; undisturbed, lookup and planned write are carried out at one time, which refines the map update |
| Controllers.SilenceService.DeleteSilence | pkg/service/silence.go:82-95 | an error exactly if a call failed, not-found being success; success takes the worker to the removal of the finalizer; undisturbed, the map is emptied at the name |
| Controllers.Reconciler.ReconcileCreate | internal/controller/silence_v2_controller.go:113-135 | an object that cannot be converted is rejected with that error and without a call; otherwise its silence is synced in its tenant, with an error exactly if a call failed |
| Controllers.Reconciler.ReconcileDelete | internal/controller/silence_v2_controller.go:137-153 | deletes by the object's comment in its tenant, and only success leads on to the finalizer |
| Controllers.Reconciler.EnsureFinalizer | internal/controller/silence_v2_controller.go:102-108 | the object comes out with the operator's finalizer, stored, or the reconcile ends |
| Controllers.Reconciler.Finalize | internal/controller/silence_v2_controller.go:79-96 | the finalizer is removed after the silence, never before |
| Controllers.SilenceV2Reconciler.ReconcileLive | internal/controller/silence_v2_controller.go:102-110 | undisturbed, the object ends with the finalizer, and synced |
| Controllers.SilenceV2Reconciler.Reconcile | internal/controller/silence_v2_controller.go:66-111 | every execution is part of a run of the protocol and ends between reconciles; there is an error exactly if a call failed, or the version read is not being deleted and cannot be converted; undisturbed, finalizers and store are what the object asks for |
| Controllers.SilenceReconciler.CleanUpLegacyFinalizer | internal/controller/silence_controller.go:127-139 | removes the legacy finalizer and nothing else, in both places it is called from |
| Controllers.SilenceReconciler.ReconcileDeleting | internal/controller/silence_controller.go:77-105 | undisturbed, first the silence goes, then the new finalizer, then the legacy one |
| Controllers.SilenceReconciler.HandOver | internal/controller/silence_controller.go:107-121 | undisturbed, the object comes out with the new finalizer and without the legacy one |
| Controllers.SilenceReconciler.ReconcileLive | internal/controller/silence_controller.go:107-124 | undisturbed, the object ends with the new finalizer and without the legacy one, and synced |
| Controllers.SilenceReconciler.Reconcile | internal/controller/silence_controller.go:63-125 | as for v1alpha2, errors included, with both finalizers |
| Controllers.NoOrphanInAnyWorld | internal/controller/silence_v2_controller.go:66-153 | whatever the classes have done in a world with honest answers, there is no orphan and no duplicate |
| Controllers.ReconcileUpdatesTheMap | pkg/service/silence.go:42-95 | an undisturbed reconcile empties the map (tenant, comment) -> silence at the object's name, or sets it there to the desired silence or to one found with its matchers and end, and changes it nowhere else; a rejected object changes nothing |
| MockServer.MockAlertmanagerServer.AddSilence | internal/controller/testutils/mock_alertmanager.go:69-78 | the silence is stored under its ID, or under one made from its comment |
| MockServer.MockAlertmanagerServer.HandleListSilences | internal/controller/testutils/mock_alertmanager.go:92-109 | exactly the silences not expired, in any order; a true listing while the statuses are right |
| MockServer.MockAlertmanagerServer.HandleCreateSilence | internal/controller/testutils/mock_alertmanager.go:111-138 | the map with that silence and status; for every tenant the write of the abstract store |
| MockServer.MockAlertmanagerServer.HandleDeleteSilence | internal/controller/testutils/mock_alertmanager.go:140-155 | the map without the ID, 200 exactly if it was there; for every tenant the removal of the abstract store |
| MockServer.MadeUpIdsAreDistinct | internal/controller/testutils/mock_alertmanager.go:121-124 | IDs made from comments collide only for the same comment |
| Calendar.NextDayIsNextNumber | pkg/alertmanager/alertmanager.go:235-238 | day numbers follow the Gregorian calendar day by day, for all valid dates |
| Calendar.InstantCounts | pkg/alertmanager/alertmanager.go:235-238 | instants are 0 at 1970-01-01T00:00:00Z, and each second of civil time adds 10^9, also at the end of days, months and years |
| Calendar.DayNumberIsMonotone | pkg/alertmanager/alertmanager.go:235-238 | an earlier date has a smaller day number, and conversely |
| Calendar.CenturyLength | pkg/alertmanager/alertmanager.go:217-221 | a hundred years have 36525 days exactly if their century year is divisible by 400, else 36524 |
| Calendar.HundredYears | pkg/alertmanager/alertmanager.go:217-221 | a hundred years after any valid date is a valid date, 36524 or 36525 days later, and which of them |
| SilenceTimes.DefaultEnd | pkg/alertmanager/alertmanager.go:217-221 | without annotation the end is that many whole days after creation |
| TimeFormat.FormatsAreDisjoint | pkg/alertmanager/alertmanager.go:223-234 | no string is both a date-time and a date |
| TimeFormat.DateAtEight | pkg/alertmanager/alertmanager.go:235-238 | any string followed by T08:00:00Z is a date-time exactly if it is a date, with the instant the code gives the date |
| TimeFormat.DateRoundTrip | pkg/alertmanager/alertmanager.go:230-234 | the date layout reads each date of a four-digit year from its printed form and from no other string |
| TimeFormat.DateTimeRoundTrip | pkg/alertmanager/alertmanager.go:223-227 | a civil time printed in UTC is read back as its instant |
| TimeFormat.DateTimeLanguage | pkg/alertmanager/alertmanager.go:223-227 | a string is a date-time with instant v exactly if it is the text of a valid local time, a fraction and a zone, and v is the local time plus the fraction, less what the zone is ahead of UTC |
| TimeFormat.FractionMeans | pkg/alertmanager/alertmanager.go:223-227 | nine digits of a fraction are nanoseconds; zeros at its end and digits after the ninth do not count |
| TimeFormat.DatesSortLikeInstants | pkg/alertmanager/alertmanager.go:235-238 | date annotations are in the order of text exactly if their ends are in the order of time |
| SilenceTimes.FormatOrderIsIrrelevant | pkg/alertmanager/alertmanager.go:223-238 | a date annotation means eight o'clock UTC whichever format is tried first |
| SilenceTimes.AnnotationMeans | pkg/alertmanager/alertmanager.go:215-239 | the end is t exactly if the annotation, or the annotation followed by T08:00:00Z, is a date-time with instant t; a date ends at eight; there is an error exactly if it is neither a date-time nor a date |
| SilenceTimes.EndFromAnnotation | internal/controller/silence_v2_controller.go:243-248 | without end and duration, v1alpha2 takes the end, or the error, of v1alpha1, also with an explicit start |
| SilenceTimes.ConservativeExtension | internal/controller/silence_v2_controller.go:221-249 | without times in the spec v1alpha2 gives the times or error of v1alpha1, for every annotation, if and only if there is a creation time |
| SilenceTimes.LowerPrioritiesAreIgnored | internal/controller/silence_v2_controller.go:231-241 | with an end or a duration the annotations have no influence, and with an end the duration has none |
| SilenceTimes.AdmittedWindow | api/v1alpha2/silence_types.go:103-104 | the window of an object the rules admit: it is an error exactly without any start, for an unreadable duration that counts, or for an unreadable annotation that counts; it starts as given or at creation; with an end it is not empty exactly if the start is given too or the object was created before the end, with a duration exactly if some digit of it is not 0 |
| SilenceTimes.ExplicitEnd | internal/controller/silence_v2_controller.go:231-233 | an explicit end is the end, and comes after the start exactly if that is given too or creation was earlier |
| SilenceTimes.WindowOfDuration | internal/controller/silence_v2_controller.go:235-241 | an admitted duration gives a window of exactly the sum of its amounts, an error only above 9223372036 seconds, and an empty window exactly if all its digits are 0 |
| SilenceTimes.DefaultWindow | internal/controller/silence_v2_controller.go:243-248 | without any times and annotation the window is not empty |
| SilenceTimes.AdmittedButEmpty | api/v1alpha2/silence_types.go:103-104 | the rules admit a duration of zero, and every end before creation, though the windows are empty or reversed |
| Duration.SecondsPositive | api/v1alpha2/silence_types.go:42-55 | a duration is positive exactly if some digit of it is not 0 |
| Duration.PatternLanguage | api/v1alpha2/silence_types.go:42-46 | the five-way pattern accepts exactly the non-empty renderings of amounts in strictly descending units |
| Duration.ParseInvertsRender | api/v1alpha2/silence_types.go:42-46 | every accepted string has exactly one decomposition, which the parser finds |
| Duration.DurationMeaning | api/v1alpha2/silence_types.go:48-55 | a duration reads as v exactly if the pattern accepts it, it says so many weeks of 7 days, days of 24 hours, hours of 60 minutes, minutes of 60 seconds, and seconds, v in all, and v is at most 9223372036 |
| Duration.SecondsByUnit | api/v1alpha2/silence_types.go:48-55 | the weighted sum of amounts is that of weeks, days, hours, minutes and seconds |
| Duration.SingleUnit | api/v1alpha2/silence_types.go:48-55 | digits followed by w, d, h, m or s are read as 168 hours, 24 hours, 3600, 60 or 1 seconds each |
| Duration.AccumulateIsWrapped | api/v1alpha2/silence_types.go:48-55 | int64 arithmetic on nanoseconds gives the weighted sum modulo 2^64 |
| Duration.Int64Exactly | api/v1alpha2/silence_types.go:48-55 | it is exact if and only if the sum is at most 9223372036 seconds |
| Duration.DurationRoundTrip | api/v1alpha2/silence_types.go:48-55 | every number of seconds within range is read back from its canonical form, which the pattern accepts |
| Comments.CollisionsOfNamespaced | pkg/alertmanager/alertmanager.go:203-208 | two namespaced objects share a comment if and only if they are equal or one namespace is the other, a hyphen and r, and the names make up for it |
| Comments.CommentReads | pkg/alertmanager/alertmanager.go:203-208 | comments are silence-operator-namespace-name, or silence-operator-name without a namespace |
| Comments.CollisionsAcrossScopes | pkg/alertmanager/alertmanager.go:203-208 | a cluster-scoped object collides with a namespaced one if and only if its name is namespace, hyphen, name |
| Comments.NoCollisions | pkg/alertmanager/alertmanager.go:203-208 | no collisions within a namespace, among namespaces without hyphens, or among cluster-scoped objects |
| Tenancy.NewRequest | pkg/alertmanager/http.go:11-29 | there is a header exactly if the call or the client has a tenant; for a tenant extracted from labels it is the effective one |
| Tenancy.TenantChain | pkg/tenancy/tenancy.go:37-58 | the effective tenant is the deciding label's value, else the fallback, and depends on no other label |
| Tenancy.TenantInWords | pkg/tenancy/tenancy.go:37-58 | with tenancy a label that is there and not empty decides, else the default, else the client's tenant; without tenancy only the last |
| Conversion.ConvertMatchersInOrder | internal/controller/silence_v2_controller.go:178-214 | the loop computes the conversion, or the error of the first unsupported match type |
| Conversion.ConversionShape | internal/controller/silence_v2_controller.go:178-214 | it fails exactly on an unsupported match type, and otherwise keeps number, order and content; nil exactly for no matchers |
| Conversion.ConversionKeepsPromise | api/v1alpha2/silence_types.go:27-40 | the converted matchers mute exactly the alerts the match types promise, for any regex semantics |
| Conversion.ConvertV1MatchersInOrder | internal/controller/silence_controller.go:183-197 | the v1alpha1 loop computes its conversion |
| Conversion.V1ConversionKeepsPromise | api/v1alpha1/silence_types.go:44-49 | the converted matchers mute exactly the alerts the two booleans promise, isEqual being true unless it says otherwise |
| Migration.MatcherSurvivesExactly | hack/migrate-silences.sh:73-99 | a matcher, migrated and converted, equals what v1alpha1 makes of it if and only if it is portable |
| Migration.CapturedShortens | hack/migrate-silences.sh:81-82 | a shell variable holds the output of a command without its trailing newlines, and is the output exactly if there are none |
| Migration.MatchersSurviveExactly | hack/migrate-silences.sh:73-99 | the same for lists, whose number and order always survive |
| Migration.MigrateMatchers | hack/migrate-silences.sh:147-161 | the loop computes the converted list in the subshell; the outer variable stays empty |
| Migration.FilterSplits | hack/migrate-silences.sh:163-180 | the filter drops exactly the entries with a system prefix, changes none, is idempotent, and composes: filters in a row act as one with both lists of prefixes |
| Migration.SystemEntriesAreLeft | hack/migrate-silences.sh:165-180 | no annotation or label whose key starts with a listed prefix is on the new object, whatever follows the prefix |
| Migration.OtherAnnotationsAreCopied | hack/migrate-silences.sh:165-172 | an annotation whose key shows none of the prefixes at its start is copied with its value |
| Migration.OtherLabelsAreCopied | hack/migrate-silences.sh:173-180 | so is a label |
| Migration.ListedPrefixes | hack/migrate-silences.sh:169-177 | which prefixes are listed, common ones and those of annotations and labels alone |
| Migration.LastAppliedIsLeft | hack/migrate-silences.sh:165-172 | what kubectl apply leaves on an object is not copied |
| Migration.OwnKeysSurvive | hack/migrate-silences.sh:163-180 | valid-until and the default tenant label are kept |
| Migration.TenantSurvivesExactly | hack/migrate-silences.sh:173-180 | the effective tenant survives, for any configuration, if and only if the deciding label is not filtered out or has the fallback's value |
| Migration.EndSurvives | hack/migrate-silences.sh:165-172 | an object with valid-until keeps its end, or its error, despite a new creation time |
| Migration.SilenceSurvives | hack/migrate-silences.sh:140-222 | with the list the loop computes, the migrated object's silence differs in comment and start at most and mutes the same alerts |
| Migration.BothMayCoexist | hack/migrate-silences.sh:194-197 | original and migrated object never share a comment |
| Migration.ShippedMatchersExactly | hack/migrate-silences.sh:148-161 | with the list really shipped, the matchers survive if and only if there were none |

## Left out

- HTTP, JSON, URL escaping, authentication and tokens: each call to Alertmanager is one step with its outcomes. The body
  of a refused listing is an empty list, or counts as a failure.
- Requests that take effect after their call has failed.
- The rest of `cmd/main.go`, selectors, watches, rate limits and requeueing: a worker may start a reconcile at any time.
- Fairness: that a reconcile is attempted again, and eventually undisturbed, is not modelled.
- Alertmanager expires a deleted silence where the model removes it; neither is live. It may move a past start to the
  present, which SyncRefinement allows for. Clustering and gossip are left out.
- Evaluation of regular expressions in matchers: an uninterpreted function.
- go-str2duration is not part of this model. `Duration` specifies it on the strings the pattern accepts; any other string,
  and any value beyond int64 nanoseconds, counts as an error.
- Go's more lenient readings of RFC 3339 (a comma before the fraction, offsets of 24 hours), and local time zones:
  creation times are in UTC.
- Interleaving.EveryInterleavingIsSerial: covers runs made of calls and user actions, since a clock tick does not commute
  with a read. NonInterference.NonInterference covers all runs, for one object at a time.
- Controllers.Reconciler: the repository has these methods once in each reconciler; they differ in the conversion
  called, which is a parameter here. Adding and removing the finalizer and the branches of `Reconcile` are methods of their own here.
- kubectl, jq, base64 and console output of the migration script. Strings with NUL characters, which a shell cannot hold.
- Generated code, manifests, logging and metrics.
