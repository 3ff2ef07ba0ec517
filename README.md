# Storage and reclamation core of the Dynatrace CSI driver, in Dafny

This project models the node-local storage-and-reclamation core of the
dynatrace-operator CSI driver and proves properties of the model. The core has
four parts:

- **Shared-image garbage collection** (`shared_images.dfy`, module `SharedImages`).
  It lists the shared binary root. It computes the protected versions: those
  used by a volume plus each tenant's latest version. It removes every other
  directory in listing order and stops at the first removal that fails.
- **GC reconcile driver** (`gc_reconciler.dfy`, module `GcReconciler`). It
  resolves the request's DynaKube. A NotFound answer is not an error. It skips
  a DynaKube with app injection off or without a derivable tenant UUID.
  Otherwise it runs binary GC, unmounted-volume GC and shared-image GC in that
  order, and checks the context for cancellation between them.
- **Metadata correctness checker** (`correctness.dfy`, module `Correctness`).
  It makes three ordered pruning passes over the metadata store: volumes of
  pods that are NotFound, tenants whose DynaKube is NotFound, and tenants whose
  latest version still sits in the deprecated per-tenant binary layout. The
  first store error aborts the run.
- **Install orchestration** (`install.dfy`, module `Install`). It wraps an
  abstract installer (URL/zip or image). Cleanup always runs. It records a
  failed or installed event. It creates the agent config directory only after a
  successful install. It returns the version or image digest, or `""` on error.

Supporting modules:

- `Wrappers`: Option and Result.
- `Failures`: error kinds, and the store calls that can fail.
- `Paths`: the path resolver. Locations are a datatype, so different keys never
  collide.
- `Cluster`: the DynaKube resource, API lookups, and the NotFound sets the
  checker sees.
- `MetadataAccess`: the metadata store as a class. Its volumes and tenants
  tables are maps, and a fault set names the calls that fail.

The filesystem the GC sees is a class (`SharedImages.FileSystem`): the state of
the shared binary root, its listing in order, and the directories whose
`RemoveAll` fails. Methods that change state (`RemoveAll`, `DeleteVolume`,
`DeleteDynakube`, the passes, `Reconcile`, the install methods) state the
new state in terms of the old one. On success they give the whole new state
through a pure specification function (`AfterGc`, `PruneVolumes`, `CorrectedDynakubes`,
`PlannedPhases`, `ZipInstall`, `ImageInstall`), and the lemmas prove what the
source promises about those functions. When a correctness pass fails partway,
its contract only bounds the new state: every deleted row was one the pass
was meant to delete, the failing row is still present, and other rows are
unchanged. The rows deleted before the failure depend on Go's map iteration
order, so which of them were deleted is not stated.

Where the code and the system's design description disagree, the model follows
the code:

- The design describes a best-effort shared-image sweep that tries every
  directory. `deleteImageDirs` returns at the first failing removal, and the
  model does the same (`DeleteImageDirs`, `DeletionStopsAtFirstFailure`).
- The design says a cancelled pass stops "without error". `Reconcile` returns
  `ctx.Err()`, and the model returns `Cancelled`.
- The design describes pinned versions. `collectGCInfo` never fills them in,
  so every version is "not pinned" in the information it builds
  (`CollectGCInfo`).
- The design claims idempotence of the correctness pass. The checker walks a
  pod-to-volume map that holds only one volume per pod. So the model proves
  idempotence of the volume pass only when no two volume rows share a pod
  (`PruneVolumesIdempotent`). `TwoVolumesOfOnePodNeedTwoRuns` shows a second
  run deleting again when a pod has two rows.

## Model

| member | source | states |
|---|---|---|
| `SharedImages.RunSharedImagesGarbageCollection` | src/controllers/csi/gc/images.go:11-31 | the listing after the pass is `AfterGc` of the old listing, the store's answers and the failing removals, and the error is `GcError`; the root's state is unchanged |
| `SharedImages.GetSharedImageDirs` | src/controllers/csi/gc/images.go:33-43 | an absent shared root lists as empty with no error; an unreadable one gives a read error; otherwise its entries |
| `SharedImages.ImageDirs` | src/controllers/csi/gc/images.go:33-43 | fails exactly when the root is unreadable; an absent root yields no entries |
| `SharedImages.CollectUnusedAgentBins` | src/controllers/csi/gc/images.go:45-67 | the loop's `toDelete` equals the unprotected directories of the listing in order; a latest-versions or used-versions store error is returned instead |
| `SharedImages.GetUsedAgentBins` | src/controllers/csi/gc/images.go:69-79 | fails exactly on a used-versions store fault; otherwise marks exactly the versions some volume is mounted with |
| `SharedImages.UnusedAgentBinsExactly` | src/controllers/csi/gc/images.go:57-66 | a path is scheduled iff it is the shared binary dir of a directory entry that is neither used nor latest |
| `SharedImages.UnusedAgentBinsSpareProtected` | src/controllers/csi/gc/images.go:62-64 | a version in the used or latest set is never scheduled |
| `SharedImages.UnusedAgentBinsSpareFiles` | src/controllers/csi/gc/images.go:58-60 | in a listing with distinct names a non-directory entry is never scheduled |
| `SharedImages.UnusedAgentBinsInOrder` | src/controllers/csi/gc/images.go:57-66 | of two unprotected directories, the one listed first is scheduled first |
| `SharedImages.FirstFailing` | src/controllers/csi/gc/images.go:82-88 | the index of the first directory whose removal fails: every earlier one succeeds |
| `SharedImages.DeleteImageDirs` | src/controllers/csi/gc/images.go:81-91 | directories before the first failing one are removed, nothing after it is touched, and that failure is the error; no failure gives no error |
| `SharedImages.DeletionStopsAtFirstFailure` | src/controllers/csi/gc/images.go:81-91 | an entry is gone exactly when its directory precedes the first failing removal in the list |
| `SharedImages.GcSparesProtected` | src/controllers/csi/gc/images.go:57-65 | a directory whose version is used or latest survives any pass |
| `SharedImages.GcRemovesUnprotected` | src/controllers/csi/gc/images.go:21-30 | with readable root and store and no failing removal, every unprotected directory is removed and the pass succeeds |
| `SharedImages.GcFailsBeforeRemoving` | src/controllers/csi/gc/images.go:12-24 | a missing root is no error and removes nothing; a listing, latest-versions or used-versions error is returned and removes nothing |
| `SharedImages.GcNothingToDelete` | src/controllers/csi/gc/images.go:25-28 | when every directory is protected the pass changes nothing and returns no error |
| `SharedImages.FileSystem.ReadDirBase` | src/controllers/csi/gc/images.go:34-35 | listing the shared root yields its entries, or an error that says whether the root is absent |
| `SharedImages.FileSystem.RemoveAll` | src/controllers/csi/gc/images.go:84-88 | a failing removal changes nothing; otherwise the directory's entry is gone and everything else is kept |
| `GcReconciler.IsNotPinned` | src/controllers/csi/gc/reconciler.go:22-24 | true exactly when the version is absent from the set or mapped to false |
| `GcReconciler.CollectGCInfo` | src/controllers/csi/gc/reconciler.go:115-125 | no info iff the tenant UUID cannot be derived; the info carries that UUID and pins nothing |
| `GcReconciler.GetDynakubeFromRequest` | src/controllers/csi/gc/reconciler.go:101-113 | NotFound gives no DynaKube and no error; any other lookup error is returned; a found object is returned |
| `GcReconciler.CtxErr` | src/controllers/csi/gc/reconciler.go:81-90 | `ctx.Err()` reports cancellation exactly once the cancelling phase count is reached |
| `GcReconciler.PlannedPhases` | src/controllers/csi/gc/reconciler.go:60-93 | no phase runs without a DynaKube, with injection off or without a tenant UUID; otherwise the phases are a prefix of binary, unmounted-volume, shared-image GC; shared-image GC runs iff neither check saw cancellation |
| `GcReconciler.PhasesInOrder` | src/controllers/csi/gc/reconciler.go:78-93 | binary GC always runs first; cancellation after a phase stops every later phase |
| `GcReconciler.CSIGarbageCollector.Reconcile` | src/controllers/csi/gc/reconciler.go:56-99 | starts exactly the planned phases; a lookup error is returned; skips return no error; cancellation returns the context error; otherwise the shared-image pass's effect and error; the result is always empty |
| `MetadataAccess.UsedVersions` | src/controllers/csi/gc/images.go:70-73 | exactly the versions of the volume rows |
| `MetadataAccess.LatestVersions` | src/controllers/csi/gc/images.go:47 | exactly the latest versions of the tenant rows |
| `MetadataAccess.Store.GetPodNames` | src/controllers/csi/metadata/correctness.go:32-42 | fails exactly on its fault; otherwise maps every pod of a volume row to one of that pod's volume IDs |
| `MetadataAccess.Store.GetTenantsToDynakubes` | src/controllers/csi/metadata/correctness.go:54-67 | fails exactly on its fault; otherwise maps every tenant row's DynaKube name to its tenant UUID |
| `MetadataAccess.Store.GetAllDynakubes` | src/controllers/csi/metadata/correctness.go:76-81 | fails exactly on its fault; otherwise lists every tenant row once |
| `MetadataAccess.Store.GetLatestVersions` | src/controllers/csi/gc/images.go:47-51 | fails exactly on its fault; otherwise flags true exactly the latest versions of all tenants |
| `MetadataAccess.Store.GetAllUsedVersions` | src/controllers/csi/gc/images.go:73-77 | fails exactly on its fault; otherwise flags true exactly the versions of all volumes |
| `MetadataAccess.Store.DeleteVolume` | src/controllers/csi/metadata/correctness.go:43-45 | fails exactly on its fault and then changes nothing; otherwise removes that row only (absent rows are no error) |
| `MetadataAccess.Store.DeleteDynakube` | src/controllers/csi/metadata/correctness.go:64-66 | fails exactly on its fault and then changes nothing; otherwise removes that row only |
| `Correctness.PruneVolumesSound` | src/controllers/csi/metadata/correctness.go:37-47 | a volume row is deleted iff its pod is NotFound and it is the row the pod index names; kept rows are unchanged |
| `Correctness.PruneVolumesExactly` | src/controllers/csi/metadata/correctness.go:37-47 | with one volume per pod, exactly the volumes of NotFound pods are deleted, whatever the iteration order |
| `Correctness.PruneVolumesIdempotent` | src/controllers/csi/metadata/correctness.go:37-47 | with one volume per pod and the same cluster, a second volume pass deletes nothing |
| `Correctness.TwoVolumesOfOnePodNeedTwoRuns` | src/controllers/csi/metadata/correctness.go:37-42 | a pod with two volume rows loses one per run, so a second run deletes again |
| `Correctness.CorrectedDynakubesRule` | src/controllers/csi/metadata/correctness.go:59-91 | a tenant row survives iff its DynaKube is not NotFound and its deprecated binary dir is absent; rows with empty tenant UUID or version never fall to the deprecated rule; kept rows are unchanged |
| `Correctness.CorrectedDynakubesIdempotent` | src/controllers/csi/metadata/correctness.go:59-91 | with the same cluster and disk, a second run deletes no tenant row |
| `Correctness.RemoveVolumesForMissingPods` | src/controllers/csi/metadata/correctness.go:31-50 | a `GetPodNames` error changes nothing; success leaves `PruneVolumes`; a `DeleteVolume` error is returned at once, with only doomed rows gone and the failing row kept |
| `Correctness.RemoveMissingDynakubes` | src/controllers/csi/metadata/correctness.go:53-72 | a listing error changes nothing; success deletes exactly the NotFound DynaKubes; a `DeleteDynakube` error is returned at once, with only NotFound rows gone |
| `Correctness.RemoveDynakubesWithVersionForDeprecatedBin` | src/controllers/csi/metadata/correctness.go:74-95 | a listing error changes nothing; success deletes exactly the rows using the deprecated layout; a `DeleteDynakube` error is returned at once, with only such rows gone |
| `Correctness.CorrectMetadata` | src/controllers/csi/metadata/correctness.go:16-28 | success leaves both tables pruned by the three passes; the pass that failed is reported, and every later pass did not run: a first-pass error leaves the tenants table untouched (`GetTenantsToDynakubes` too), a second-pass error comes after a completed first pass and deleted only NotFound tenants, a third-pass error comes after completed first and second passes; every error is a store fault |
| `Install.GetUrlProperties` | src/controllers/csi/provisioner/install.go:93-103 | the URL installer is asked for the target version, Unix, PaaS, all technologies, the build's arch and flavor |
| `Install.InstallAgentSteps` | src/controllers/csi/provisioner/install.go:76-91 | the install comes first and Cleanup last on every path; a middle step, if any, is the failed event on failure and the installed event otherwise |
| `Install.InstallAgentEvents` | src/controllers/csi/provisioner/install.go:77-90 | Cleanup exactly once; a failure records one failed and no installed event; a fresh install one installed event; an already-present install no event |
| `Install.ZipInstall` | src/controllers/csi/provisioner/install.go:54-74 | a tenant-UUID error gives `""` and that error before anything happens; the steps open with `installAgent`'s steps (install, event, Cleanup) for the directory keyed by the target version; success iff install and config dir succeed, returning the target version, else `""` |
| `Install.ImageInstall` | src/controllers/csi/provisioner/install.go:18-52 | a tenant-UUID error gives `""` and that error before anything happens; the pull secret is stored first, and a failure to store it or to create the installer ends the run there with that error; otherwise `installAgent`'s steps (install, event, Cleanup) follow for the directory keyed by the image's digest; success iff all of these and the config dir succeed, returning the digest, else `""` |
| `Install.ZipInstallConfigDirLast` | src/controllers/csi/provisioner/install.go:64-72 | the config dir is created only as the last step, right after the Cleanup of a non-failed install |
| `Install.ImageInstallConfigDirLast` | src/controllers/csi/provisioner/install.go:41-49 | the config dir is created only as the last step, right after the Cleanup of a non-failed install |
| `Install.OneAgentProvisioner.InstallAgent` | src/controllers/csi/provisioner/install.go:76-91 | appends exactly `InstallAgentSteps` to the effect trace and returns the installer's error, if any |
| `Install.OneAgentProvisioner.InstallAgentZip` | src/controllers/csi/provisioner/install.go:54-74 | appends `ZipInstall`'s steps to the trace and returns its version and error |
| `Install.OneAgentProvisioner.InstallAgentImage` | src/controllers/csi/provisioner/install.go:18-52 | appends `ImageInstall`'s steps to the trace and returns its version and error |

## Left out

- Logging is not modelled. This covers `log.Info`, the deferred `LogAccessOverview` and the `pruned` lists, which are only ever logged.
- `runBinaryGarbageCollection`, `runUnmountedVolumeGarbageCollection` and `determineMaxUnmountedVolumeAge` are not part of this model. `Reconcile` records only that they started, and in which order. So age-based stale-volume collection is not modelled. `Reconcile` also assumes that these two phases touch neither the shared binary root nor the metadata store. This is why its contract gives the shared-image pass's result from the listing and the store as they were before the reconcile.
- The path resolver is not part of this model. Its paths are a datatype, which makes them injective by construction. The concrete directory strings are not modelled.
- The filesystem is only the shared binary root and its children. The listing order is whatever `ReadDir` returns. A fault set decides which removals fail.
- The existence check behind the deprecated-layout rule (`os.Stat`) is a set of existing directories. Any `Stat` error counts as absent, as in the source.
- The SQLite-backed store is two maps plus a fault set. `GetPodNames` keeps one volume row per pod, chosen arbitrarily, as a Go map built from rows would. Which row it keeps is not modelled.
- The Kubernetes API is reduced to lookup outcomes. In the checker, only the names that answer NotFound matter, because any other outcome takes the "keep" branch.
- Go map iteration order is a nondeterministic choice. The contracts hold for every order.
- The installers' internals are abstract parameters of `Install.Env`. These are download, extraction, atomic rename, digest resolution, pull-secret contents and the process-module config. So are the build's arch and flavor.
- Error wrapping (`errors.WithStack`) is not modelled. A wrapped error is the error it wraps.
- Concurrency between GC, mounts and the checker is out of scope. Every operation is modelled as running alone.
- `ctx` is only consulted at the two checks in `Reconcile`. Its use inside store calls is not modelled.
- `SharedImages.DeleteImageDirs`: requires that the list does not contain the shared root itself. Its only caller passes shared binary directories.
- `Correctness.PruneVolumesIdempotent`: proved only when no two volume rows share a pod. Otherwise, as written, it does not hold (`TwoVolumesOfOnePodNeedTwoRuns`).
