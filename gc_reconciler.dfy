/** The garbage-collection reconcile driver: resolves the DynaKube of a
    request, skips when there is nothing to collect for it, and otherwise runs
    binary GC, unmounted-volume GC and shared-image GC in that order, checking
    for cancellation between them. */
module GcReconciler {
  import opened Wrappers
  import opened Failures
  import opened Cluster
  import opened MetadataAccess
  import opened SharedImages

  /** `pinnedVersionSet.isNotPinned`: a version absent from the set, or mapped
      to false, is not pinned. */
  function IsNotPinned(pinned: map<string, bool>, version: string): (r: bool)
    ensures r <==> version !in pinned || !pinned[version]
  {
    !(version in pinned && pinned[version])
  }

  /** Tenant-specific information for the collection. */
  datatype GcInfo = GcInfo(tenantUUID: string, pinnedVersions: map<string, bool>)

  /** `collectGCInfo`: no info when the tenant UUID cannot be derived. As
      written, the pinned versions are never filled in. */
  function CollectGCInfo(dynakube: DynaKube): (r: Option<GcInfo>)
    ensures r.None? <==> dynakube.tenantUUID.Failure?
    ensures r.Some? ==> r.value.tenantUUID == dynakube.tenantUUID.value
    ensures r.Some? ==> forall v :: IsNotPinned(r.value.pinnedVersions, v)
  {
    match dynakube.tenantUUID
    case Failure(_) => None
    case Success(tenantUUID) => Some(GcInfo(tenantUUID, map[]))
  }

  /** `getDynakubeFromRequest`: NotFound becomes "no DynaKube and no error";
      any other lookup error is returned. */
  function GetDynakubeFromRequest(lookup: Lookup<DynaKube>): (r: Result<Option<DynaKube>, Error>)
    ensures r.Failure? <==> lookup.LookupFailed?
    ensures r.Failure? ==> r.error == lookup.error
    ensures r == Success(None) <==> lookup.NotFound?
    ensures r.Success? && r.value.Some? <==> lookup.Found?
    ensures r.Success? && r.value.Some? ==> r.value.value == lookup.obj
  {
    match lookup
    case Found(dynakube) => Success(Some(dynakube))
    case NotFound => Success(None)
    case LookupFailed(e) => Failure(e)
  }

  /** The request's context: it reports cancellation once `cancelAfter`
      phases have finished (never, when `None`). */
  datatype Context = Context(cancelAfter: Option<nat>)

  /** `ctx.Err()` after `finished` phases. Once cancelled, a context stays cancelled. */
  function CtxErr(ctx: Context, finished: nat): (r: Option<Error>)
    ensures r.Some? ==> r.value == Cancelled
    ensures r.Some? <==> ctx.cancelAfter.Some? && ctx.cancelAfter.value <= finished
  {
    if ctx.cancelAfter.Some? && ctx.cancelAfter.value <= finished then Some(Cancelled) else None
  }

  /** Once cancelled, a context stays cancelled. */
  lemma CancellationSticks(ctx: Context, finished: nat, later: nat)
    requires finished <= later && CtxErr(ctx, finished).Some?
    ensures CtxErr(ctx, later) == Some(Cancelled)
  {
  }

  /** A garbage-collection phase. Binary and unmounted-volume collection are
      opaque here: only their start, and its order, is observed. */
  datatype Phase = BinaryGc(tenantUUID: string) | UnmountedVolumeGc(tenantUUID: string) | SharedImagesGc

  /** Every phase, in the order a reconcile runs them for a tenant. */
  function AllPhases(tenantUUID: string): seq<Phase>
  {
    [BinaryGc(tenantUUID), UnmountedVolumeGc(tenantUUID), SharedImagesGc]
  }

  /** The phases a reconcile starts: none without a DynaKube, with injection
      off, or without a tenant UUID; otherwise the phases up to the first
      cancellation check that fails. */
  function PlannedPhases(lookup: Lookup<DynaKube>, ctx: Context): (r: seq<Phase>)
    ensures r != [] <==> lookup.Found? && lookup.obj.needAppInjection && lookup.obj.tenantUUID.Success?
    ensures r != [] ==> r <= AllPhases(lookup.obj.tenantUUID.value)
    ensures SharedImagesGc in r <==> r != [] && CtxErr(ctx, 1).None? && CtxErr(ctx, 2).None?
  {
    if !lookup.Found? || !lookup.obj.needAppInjection || lookup.obj.tenantUUID.Failure? then []
    else
      var tenantUUID := lookup.obj.tenantUUID.value;
      if CtxErr(ctx, 1).Some? then [BinaryGc(tenantUUID)]
      else if CtxErr(ctx, 2).Some? then [BinaryGc(tenantUUID), UnmountedVolumeGc(tenantUUID)]
      else AllPhases(tenantUUID)
  }

  /** controller-runtime's `reconcile.Result`. */
  datatype ReconcileResult = ReconcileResult(requeue: bool, requeueAfterSeconds: nat)

  class CSIGarbageCollector {
    const fs: FileSystem
    const db: Store
    /** The phases started so far, in order. */
    var phases: seq<Phase>

    constructor (fs: FileSystem, db: Store)
      ensures this.fs == fs && this.db == db && phases == []
    {
      this.fs := fs;
      this.db := db;
      phases := [];
    }

    /** `Reconcile`. `lookup` is the API server's answer for the request's
        DynaKube. */
    method Reconcile(lookup: Lookup<DynaKube>, ctx: Context) returns (res: ReconcileResult, err: Option<Error>)
      requires fs.Valid()
      modifies this, fs
      ensures fs.Valid() && fs.root == old(fs.root)
      ensures res == ReconcileResult(false, 0)
      ensures phases == old(phases) + PlannedPhases(lookup, ctx)
      ensures lookup.LookupFailed? ==> err == Some(lookup.error)
      ensures PlannedPhases(lookup, ctx) == [] && !lookup.LookupFailed? ==> err == None
      ensures PlannedPhases(lookup, ctx) != [] && SharedImagesGc !in PlannedPhases(lookup, ctx) ==> err == Some(Cancelled)
      ensures SharedImagesGc !in PlannedPhases(lookup, ctx) ==> fs.entries == old(fs.entries)
      ensures SharedImagesGc in PlannedPhases(lookup, ctx) ==>
        && fs.entries == AfterGc(old(fs.root), old(fs.entries), db.LatestVersionsResult(), db.UsedVersionsResult(), fs.removeFaults)
        && err == GcError(old(fs.root), old(fs.entries), db.LatestVersionsResult(), db.UsedVersionsResult(), fs.removeFaults)
    {
      var defaultReconcileResult := ReconcileResult(false, 0);
      var dynakube := GetDynakubeFromRequest(lookup);
      if dynakube.Failure? {
        return defaultReconcileResult, Some(dynakube.error);
      }
      if dynakube.value.None? {
        return defaultReconcileResult, None;
      }
      if !dynakube.value.value.needAppInjection {
        return defaultReconcileResult, None;
      }
      var gcInfo := CollectGCInfo(dynakube.value.value);
      if gcInfo.None? {
        return defaultReconcileResult, None;
      }
      var tenantUUID := gcInfo.value.tenantUUID;

      phases := phases + [BinaryGc(tenantUUID)];
      var e := CtxErr(ctx, 1);
      if e.Some? {
        return defaultReconcileResult, e;
      }

      phases := phases + [UnmountedVolumeGc(tenantUUID)];
      e := CtxErr(ctx, 2);
      if e.Some? {
        return defaultReconcileResult, e;
      }

      phases := phases + [SharedImagesGc];
      e := RunSharedImagesGarbageCollection(fs, db);
      if e.Some? {
        return defaultReconcileResult, e;
      }
      return defaultReconcileResult, None;
    }
  }

  /** The phases always start in the fixed order, and a cancellation seen after
      a phase keeps every later phase from starting. */
  lemma PhasesInOrder(lookup: Lookup<DynaKube>, ctx: Context, tenantUUID: string)
    requires lookup.Found? && lookup.obj.needAppInjection && lookup.obj.tenantUUID == Success(tenantUUID)
    ensures PlannedPhases(lookup, ctx)[0] == BinaryGc(tenantUUID)
    ensures CtxErr(ctx, 1).Some? ==> PlannedPhases(lookup, ctx) == [BinaryGc(tenantUUID)]
    ensures CtxErr(ctx, 1).None? && CtxErr(ctx, 2).Some? ==>
      PlannedPhases(lookup, ctx) == [BinaryGc(tenantUUID), UnmountedVolumeGc(tenantUUID)]
    ensures ctx.cancelAfter.None? ==> PlannedPhases(lookup, ctx) == AllPhases(tenantUUID)
  {
  }
}
