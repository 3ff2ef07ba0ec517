/** The metadata correctness checker: three ordered pruning passes over the
    store that drop rows the live cluster or the disk no longer backs. The
    first store error aborts everything after it. */
module Correctness {
  import opened Wrappers
  import opened Failures
  import opened Paths
  import opened Cluster
  import opened MetadataAccess

  /** `after` is `before` with some rows deleted, all of them keyed in `allowed`. */
  ghost predicate PrunedWithin<V>(before: map<string, V>, after: map<string, V>, allowed: set<string>)
  {
    && after.Keys <= before.Keys
    && (forall k :: k in after ==> after[k] == before[k])
    && before.Keys - after.Keys <= allowed
  }

  // ---------------------------------------------------------------- pass 1

  /** The volumes the first pass deletes: the one volume `GetPodNames` gave
      for every pod whose lookup is NotFound. */
  function DoomedVolumes(index: map<string, string>, missingPods: set<string>): set<string>
  {
    set p | p in index && p in missingPods :: index[p]
  }

  /** The volumes table after the first pass. */
  function PruneVolumes(volumes: map<string, Volume>, index: map<string, string>, missingPods: set<string>): map<string, Volume>
  {
    volumes - DoomedVolumes(index, missingPods)
  }

  /** Only volumes of missing pods are deleted; every other row stays as it was. */
  lemma PruneVolumesSound(volumes: map<string, Volume>, index: map<string, string>, missingPods: set<string>, id: string)
    requires IsPodIndex(volumes, index)
    requires id in volumes
    ensures id !in PruneVolumes(volumes, index, missingPods) <==>
      volumes[id].podName in missingPods && index[volumes[id].podName] == id
    ensures id in PruneVolumes(volumes, index, missingPods) ==> PruneVolumes(volumes, index, missingPods)[id] == volumes[id]
  {
    if id in DoomedVolumes(index, missingPods) {
      var p :| p in index && p in missingPods && index[p] == id;
      assert volumes[id].podName == p;
    }
    var p := volumes[id].podName;
    if p in missingPods && index[p] == id {
      assert id in DoomedVolumes(index, missingPods);
    }
  }

  /** No two volume rows share a pod. */
  ghost predicate OneVolumePerPod(volumes: map<string, Volume>)
  {
    forall a, b :: a in volumes && b in volumes && a != b ==> volumes[a].podName != volumes[b].podName
  }

  /** With one volume per pod, the first pass deletes exactly the volumes of
      missing pods, whatever order the store lists them in. */
  lemma PruneVolumesExactly(volumes: map<string, Volume>, index: map<string, string>, missingPods: set<string>)
    requires IsPodIndex(volumes, index) && OneVolumePerPod(volumes)
    ensures PruneVolumes(volumes, index, missingPods) == map id | id in volumes && volumes[id].podName !in missingPods :: volumes[id]
  {
    forall id | id in volumes
      ensures id in PruneVolumes(volumes, index, missingPods) <==> volumes[id].podName !in missingPods
    {
      PruneVolumesSound(volumes, index, missingPods, id);
      var p := volumes[id].podName;
      assert volumes[index[p]].podName == p;
    }
  }

  /** With one volume per pod and an unchanged cluster, a second first pass
      deletes nothing. */
  lemma PruneVolumesIdempotent(volumes: map<string, Volume>, index: map<string, string>, index2: map<string, string>, missingPods: set<string>)
    requires IsPodIndex(volumes, index) && OneVolumePerPod(volumes)
    requires IsPodIndex(PruneVolumes(volumes, index, missingPods), index2)
    ensures PruneVolumes(PruneVolumes(volumes, index, missingPods), index2, missingPods) == PruneVolumes(volumes, index, missingPods)
  {
    var once := PruneVolumes(volumes, index, missingPods);
    PruneVolumesExactly(volumes, index, missingPods);
    assert forall p :: p in index2 ==> p !in missingPods;
    assert DoomedVolumes(index2, missingPods) == {};
  }

  /** As written, a pod with two volume rows loses only one of them per run,
      so a second run with the same cluster deletes again. */
  lemma TwoVolumesOfOnePodNeedTwoRuns()
    ensures var volumes := map["v1" := Volume("p", "t", "1"), "v2" := Volume("p", "t", "1")];
      && IsPodIndex(volumes, map["p" := "v1"])
      && PruneVolumes(volumes, map["p" := "v1"], {"p"}) == map["v2" := Volume("p", "t", "1")]
      && IsPodIndex(map["v2" := Volume("p", "t", "1")], map["p" := "v2"])
      && PruneVolumes(map["v2" := Volume("p", "t", "1")], map["p" := "v2"], {"p"}) == map[]
  {
    var volumes := map["v1" := Volume("p", "t", "1"), "v2" := Volume("p", "t", "1")];
    assert DoomedVolumes(map["p" := "v1"], {"p"}) == {"v1"};
    assert DoomedVolumes(map["p" := "v2"], {"p"}) == {"v2"};
  }

  // ---------------------------------------------------------------- pass 2

  /** The tenants table after the second pass. */
  function PruneMissingDynakubes(dynakubes: map<string, DynakubeRow>, missingDynakubes: set<string>): map<string, DynakubeRow>
  {
    dynakubes - missingDynakubes
  }

  // ---------------------------------------------------------------- pass 3

  /** A tenant row whose latest version still has a binary directory in the
      deprecated per-tenant layout. Rows with an empty tenant UUID or version
      are never matched. */
  predicate UsesDeprecatedBin(row: DynakubeRow, present: set<Path>)
  {
    && row.tenantUUID != ""
    && row.latestVersion != ""
    && AgentBinaryDirForVersion(row.tenantUUID, row.latestVersion) in present
  }

  function DeprecatedNames(dynakubes: map<string, DynakubeRow>, present: set<Path>): set<string>
  {
    set n | n in dynakubes && UsesDeprecatedBin(dynakubes[n], present)
  }

  /** The tenants table after the third pass. */
  function PruneDeprecated(dynakubes: map<string, DynakubeRow>, present: set<Path>): map<string, DynakubeRow>
  {
    dynakubes - DeprecatedNames(dynakubes, present)
  }

  /** The tenants table after a successful run. */
  function CorrectedDynakubes(dynakubes: map<string, DynakubeRow>, missingDynakubes: set<string>, present: set<Path>): map<string, DynakubeRow>
  {
    PruneDeprecated(PruneMissingDynakubes(dynakubes, missingDynakubes), present)
  }

  /** A row survives a run exactly when its DynaKube is not NotFound and it
      does not use the deprecated layout; a surviving row is unchanged. */
  lemma CorrectedDynakubesRule(dynakubes: map<string, DynakubeRow>, missingDynakubes: set<string>, present: set<Path>, n: string)
    requires n in dynakubes
    ensures n in CorrectedDynakubes(dynakubes, missingDynakubes, present) <==>
      n !in missingDynakubes && !UsesDeprecatedBin(dynakubes[n], present)
    ensures n in CorrectedDynakubes(dynakubes, missingDynakubes, present) ==>
      CorrectedDynakubes(dynakubes, missingDynakubes, present)[n] == dynakubes[n]
    ensures dynakubes[n].tenantUUID == "" || dynakubes[n].latestVersion == "" ==>
      (n in CorrectedDynakubes(dynakubes, missingDynakubes, present) <==> n !in missingDynakubes)
  {
  }

  /** With an unchanged cluster and disk, a second run deletes no tenant row. */
  lemma CorrectedDynakubesIdempotent(dynakubes: map<string, DynakubeRow>, missingDynakubes: set<string>, present: set<Path>)
    ensures var once := CorrectedDynakubes(dynakubes, missingDynakubes, present);
      CorrectedDynakubes(once, missingDynakubes, present) == once
  {
    var once := CorrectedDynakubes(dynakubes, missingDynakubes, present);
    assert once.Keys !! missingDynakubes;
    assert DeprecatedNames(PruneMissingDynakubes(once, missingDynakubes), present) == {} by {
      forall n | n in PruneMissingDynakubes(once, missingDynakubes)
        ensures !UsesDeprecatedBin(PruneMissingDynakubes(once, missingDynakubes)[n], present)
      {
        CorrectedDynakubesRule(dynakubes, missingDynakubes, present, n);
      }
    }
    assert PruneMissingDynakubes(once, missingDynakubes) == once;
  }

  // ---------------------------------------------------------------- the passes

  /** `removeVolumesForMissingPods`. `index` is the pod-to-volume map the
      store answered with. */
  method RemoveVolumesForMissingPods(cl: Cluster, access: Store) returns (err: Option<Error>, ghost index: map<string, string>)
    modifies access
    ensures access.dynakubes == old(access.dynakubes)
    ensures StoreOp.GetPodNames in access.faults ==>
      err == Some(StoreError(StoreOp.GetPodNames)) && access.volumes == old(access.volumes)
    ensures StoreOp.GetPodNames !in access.faults ==> IsPodIndex(old(access.volumes), index)
    ensures err.None? ==> access.volumes == PruneVolumes(old(access.volumes), index, cl.missingPods)
    ensures err.Some? ==> PrunedWithin(old(access.volumes), access.volumes, DoomedVolumes(index, cl.missingPods))
    ensures err.Some? && StoreOp.GetPodNames !in access.faults ==>
      exists id :: id in DoomedVolumes(index, cl.missingPods) && id in access.volumes
        && StoreOp.DeleteVolume(id) in access.faults && err == Some(StoreError(StoreOp.DeleteVolume(id)))
  {
    var podNames := access.GetPodNames();
    if podNames.Failure? {
      return Some(podNames.error), map[];
    }
    var pods := podNames.value;
    index := pods;
    ghost var volumes0 := access.volumes;
    var todo := pods.Keys;
    while todo != {}
      invariant todo <= index.Keys
      invariant access.dynakubes == old(access.dynakubes)
      invariant access.volumes == volumes0 - DoomedVolumes(index - todo, cl.missingPods)
      decreases todo
    {
      var podName :| podName in todo;
      ghost var done := index - todo;
      assert DoomedVolumes(index - (todo - {podName}), cl.missingPods)
        == DoomedVolumes(done, cl.missingPods) + (if podName in cl.missingPods then {index[podName]} else {});
      if podName in cl.missingPods {
        var volumeID := pods[podName];
        var e := access.DeleteVolume(volumeID);
        if e.Some? {
          assert volumeID in DoomedVolumes(index, cl.missingPods);
          assert volumeID !in DoomedVolumes(done, cl.missingPods);
          return e, index;
        }
      }
      todo := todo - {podName};
    }
    assert index - todo == index;
    return None, index;
  }

  /** `removeMissingDynakubes`. */
  method RemoveMissingDynakubes(cl: Cluster, access: Store) returns (err: Option<Error>)
    modifies access
    ensures access.volumes == old(access.volumes)
    ensures StoreOp.GetTenantsToDynakubes in access.faults ==>
      err == Some(StoreError(StoreOp.GetTenantsToDynakubes)) && access.dynakubes == old(access.dynakubes)
    ensures err.None? ==> access.dynakubes == PruneMissingDynakubes(old(access.dynakubes), cl.missingDynakubes)
    ensures err.Some? ==> PrunedWithin(old(access.dynakubes), access.dynakubes, cl.missingDynakubes)
    ensures err.Some? && StoreOp.GetTenantsToDynakubes !in access.faults ==>
      exists n :: n in cl.missingDynakubes && n in access.dynakubes
        && StoreOp.DeleteDynakube(n) in access.faults && err == Some(StoreError(StoreOp.DeleteDynakube(n)))
  {
    var dynakubes := access.GetTenantsToDynakubes();
    if dynakubes.Failure? {
      return Some(dynakubes.error);
    }
    ghost var dynakubes0 := access.dynakubes;
    var todo := dynakubes.value.Keys;
    while todo != {}
      invariant todo <= dynakubes0.Keys
      invariant access.volumes == old(access.volumes)
      invariant access.dynakubes == dynakubes0 - ((dynakubes0.Keys - todo) * cl.missingDynakubes)
      decreases todo
    {
      var dynakubeName :| dynakubeName in todo;
      if dynakubeName in cl.missingDynakubes {
        var e := access.DeleteDynakube(dynakubeName);
        if e.Some? {
          return e;
        }
      }
      todo := todo - {dynakubeName};
    }
    return None;
  }

  /** `removeDynakubesWithVersionForDeprecatedBin`. `present` is the set of
      directories `os.Stat` finds. */
  method RemoveDynakubesWithVersionForDeprecatedBin(access: Store, present: set<Path>) returns (err: Option<Error>)
    modifies access
    ensures access.volumes == old(access.volumes)
    ensures StoreOp.GetAllDynakubes in access.faults ==>
      err == Some(StoreError(StoreOp.GetAllDynakubes)) && access.dynakubes == old(access.dynakubes)
    ensures err.None? ==> access.dynakubes == PruneDeprecated(old(access.dynakubes), present)
    ensures err.Some? ==> PrunedWithin(old(access.dynakubes), access.dynakubes, DeprecatedNames(old(access.dynakubes), present))
    ensures err.Some? && StoreOp.GetAllDynakubes !in access.faults ==>
      exists n :: n in DeprecatedNames(old(access.dynakubes), present) && n in access.dynakubes
        && StoreOp.DeleteDynakube(n) in access.faults && err == Some(StoreError(StoreOp.DeleteDynakube(n)))
  {
    var dynakubes := access.GetAllDynakubes();
    if dynakubes.Failure? {
      return Some(dynakubes.error);
    }
    ghost var dynakubes0 := access.dynakubes;
    var rows := dynakubes.value;
    var i := 0;
    while i < |rows|
      invariant 0 <= i <= |rows|
      invariant access.volumes == old(access.volumes)
      invariant access.dynakubes == dynakubes0 - DeprecatedAmong(rows[..i], present)
    {
      var dynakube := rows[i];
      assert rows[..i + 1] == rows[..i] + [dynakube];
      DeprecatedAmongStep(rows[..i], dynakube, present);
      if dynakube.tenantUUID == "" || dynakube.latestVersion == "" {
        i := i + 1;
        continue;
      }
      if AgentBinaryDirForVersion(dynakube.tenantUUID, dynakube.latestVersion) in present {
        var e := access.DeleteDynakube(dynakube.name);
        if e.Some? {
          FailedDeleteIsFresh(dynakubes0, rows, i, present);
          return e;
        }
      }
      i := i + 1;
    }
    assert rows[..i] == rows;
    DeprecatedAmongSnapshot(dynakubes0, rows, |rows|, present);
    return None;
  }

  /** The names of the listed rows that use the deprecated layout. */
  function DeprecatedAmong(rows: seq<Dynakube>, present: set<Path>): set<string>
  {
    set j | 0 <= j < |rows| && UsesDeprecatedBin(DynakubeRow(rows[j].tenantUUID, rows[j].latestVersion), present) :: rows[j].name
  }

  lemma DeprecatedAmongStep(rows: seq<Dynakube>, row: Dynakube, present: set<Path>)
    ensures DeprecatedAmong(rows + [row], present) ==
      DeprecatedAmong(rows, present) + (if UsesDeprecatedBin(DynakubeRow(row.tenantUUID, row.latestVersion), present) then {row.name} else {})
  {
    var all := rows + [row];
    forall n | n in DeprecatedAmong(all, present)
      ensures n in DeprecatedAmong(rows, present) || (n == row.name && UsesDeprecatedBin(DynakubeRow(row.tenantUUID, row.latestVersion), present))
    {
      var j :| 0 <= j < |all| && UsesDeprecatedBin(DynakubeRow(all[j].tenantUUID, all[j].latestVersion), present) && all[j].name == n;
      if j < |rows| { assert all[j] == rows[j]; }
    }
    forall n | n in DeprecatedAmong(rows, present) ensures n in DeprecatedAmong(all, present) {
      var j :| 0 <= j < |rows| && UsesDeprecatedBin(DynakubeRow(rows[j].tenantUUID, rows[j].latestVersion), present) && rows[j].name == n;
      assert all[j] == rows[j];
    }
    if UsesDeprecatedBin(DynakubeRow(row.tenantUUID, row.latestVersion), present) {
      assert all[|rows|] == row;
    }
  }

  /** The row whose deletion fails is a deprecated row of the table that no
      earlier step deleted. */
  lemma FailedDeleteIsFresh(dynakubes: map<string, DynakubeRow>, rows: seq<Dynakube>, i: nat, present: set<Path>)
    requires IsSnapshot(dynakubes, rows) && i < |rows|
    requires UsesDeprecatedBin(DynakubeRow(rows[i].tenantUUID, rows[i].latestVersion), present)
    ensures rows[i].name !in DeprecatedAmong(rows[..i], present)
    ensures rows[i].name in DeprecatedNames(dynakubes, present)
    ensures DeprecatedAmong(rows[..i], present) <= DeprecatedNames(dynakubes, present)
  {
    DeprecatedAmongSnapshot(dynakubes, rows, i, present);
  }

  /** Over a snapshot of the table, the listed deprecated rows are the
      table's deprecated rows among the first `i`; all of them at the end. */
  lemma DeprecatedAmongSnapshot(dynakubes: map<string, DynakubeRow>, rows: seq<Dynakube>, i: nat, present: set<Path>)
    requires IsSnapshot(dynakubes, rows) && i <= |rows|
    ensures DeprecatedAmong(rows[..i], present) <= DeprecatedNames(dynakubes, present)
    ensures i == |rows| ==> DeprecatedAmong(rows[..i], present) == DeprecatedNames(dynakubes, present)
  {
    forall n | n in DeprecatedAmong(rows[..i], present) ensures n in DeprecatedNames(dynakubes, present) {
      var j :| 0 <= j < i && UsesDeprecatedBin(DynakubeRow(rows[..i][j].tenantUUID, rows[..i][j].latestVersion), present) && rows[..i][j].name == n;
      assert rows[j] == rows[..i][j];
    }
    if i == |rows| {
      assert rows[..i] == rows;
      forall n | n in DeprecatedNames(dynakubes, present) ensures n in DeprecatedAmong(rows, present) {
        var j :| 0 <= j < |rows| && rows[j].name == n;
        assert dynakubes[n] == DynakubeRow(rows[j].tenantUUID, rows[j].latestVersion);
      }
    }
  }

  /** An error that only the first pass can return. */
  predicate FirstPassError(e: Error)
  {
    e == StoreError(StoreOp.GetPodNames) || (e.StoreError? && e.op.DeleteVolume?)
  }

  /** `CorrectMetadata`: the three passes in order, stopping at the first
      error. `index` is the pod-to-volume map the first pass worked from;
      `failedPass` is the pass that returned the error, 0 when none did. */
  method CorrectMetadata(cl: Cluster, access: Store, present: set<Path>) returns (err: Option<Error>, ghost index: map<string, string>, ghost failedPass: nat)
    modifies access
    ensures StoreOp.GetPodNames !in access.faults ==> IsPodIndex(old(access.volumes), index)
    ensures err.None? <==> failedPass == 0
    ensures failedPass <= 3
    ensures err.None? ==>
      && access.volumes == PruneVolumes(old(access.volumes), index, cl.missingPods)
      && access.dynakubes == CorrectedDynakubes(old(access.dynakubes), cl.missingDynakubes, present)
    ensures err.Some? ==> err.value.StoreError? && err.value.op in access.faults
    // a failure of the first pass: the tenants table is untouched
    ensures failedPass == 1 <==> err.Some? && FirstPassError(err.value)
    ensures failedPass == 1 ==>
      && PrunedWithin(old(access.volumes), access.volumes, DoomedVolumes(index, cl.missingPods))
      && access.dynakubes == old(access.dynakubes)
    // a failure of the second pass: the first pass completed, the third never ran
    ensures failedPass == 2 ==>
      && access.volumes == PruneVolumes(old(access.volumes), index, cl.missingPods)
      && PrunedWithin(old(access.dynakubes), access.dynakubes, cl.missingDynakubes)
      && (err.value.op == StoreOp.GetTenantsToDynakubes || (err.value.op.DeleteDynakube? && err.value.op.name in cl.missingDynakubes))
    ensures err == Some(StoreError(StoreOp.GetTenantsToDynakubes)) ==>
      failedPass == 2 && access.dynakubes == old(access.dynakubes)
    // a failure of the third pass: the first two passes completed
    ensures failedPass == 3 ==>
      && access.volumes == PruneVolumes(old(access.volumes), index, cl.missingPods)
      && PrunedWithin(PruneMissingDynakubes(old(access.dynakubes), cl.missingDynakubes), access.dynakubes,
           DeprecatedNames(PruneMissingDynakubes(old(access.dynakubes), cl.missingDynakubes), present))
      && (err.value.op == StoreOp.GetAllDynakubes || err.value.op.DeleteDynakube?)
    ensures err == Some(StoreError(StoreOp.GetAllDynakubes)) ==>
      failedPass == 3 && access.dynakubes == PruneMissingDynakubes(old(access.dynakubes), cl.missingDynakubes)
  {
    var e;
    e, index := RemoveVolumesForMissingPods(cl, access);
    if e.Some? {
      return e, index, 1;
    }
    e := RemoveMissingDynakubes(cl, access);
    if e.Some? {
      return e, index, 2;
    }
    e := RemoveDynakubesWithVersionForDeprecatedBin(access, present);
    if e.Some? {
      return e, index, 3;
    }
    return None, index, 0;
  }
}
