/** The metadata store (`metadata.Access`): the volumes table and the
    tenants/dynakubes table, with a fault model that names the calls that
    fail. Only the calls this core makes are modelled. */
module MetadataAccess {
  import opened Wrappers
  import opened Failures

  /** A row of the volumes table, keyed by its CSI volume ID. */
  datatype Volume = Volume(podName: string, tenantUUID: string, version: string)

  /** A row of the tenants table, keyed by the name of its DynaKube. */
  datatype DynakubeRow = DynakubeRow(tenantUUID: string, latestVersion: string)

  /** A tenants-table row as `GetAllDynakubes` hands it out, name included. */
  datatype Dynakube = Dynakube(name: string, tenantUUID: string, latestVersion: string)

  /** The versions some volume is mounted with. */
  function UsedVersions(volumes: map<string, Volume>): (vs: set<string>)
    ensures forall id :: id in volumes ==> volumes[id].version in vs
    ensures forall v :: v in vs ==> exists id :: id in volumes && volumes[id].version == v
  {
    set id | id in volumes :: volumes[id].version
  }

  /** The latest version of every tenant. */
  function LatestVersions(dynakubes: map<string, DynakubeRow>): (vs: set<string>)
    ensures forall n :: n in dynakubes ==> dynakubes[n].latestVersion in vs
    ensures forall v :: v in vs ==> exists n :: n in dynakubes && dynakubes[n].latestVersion == v
  {
    set n | n in dynakubes :: dynakubes[n].latestVersion
  }

  /** The `map[string]bool` form in which the store hands out a set. */
  function AsFlags(s: set<string>): map<string, bool>
  {
    map v | v in s :: true
  }

  /** `index` is a possible result of `GetPodNames`: every pod of some volume
      is a key, mapped to the ID of one of that pod's volumes. */
  ghost predicate IsPodIndex(volumes: map<string, Volume>, index: map<string, string>)
  {
    && (forall p :: p in index ==> index[p] in volumes && volumes[index[p]].podName == p)
    && (forall id :: id in volumes ==> volumes[id].podName in index)
  }

  /** `rows` is a possible result of `GetAllDynakubes`: each row of the table
      exactly once, in some order. */
  ghost predicate IsSnapshot(dynakubes: map<string, DynakubeRow>, rows: seq<Dynakube>)
  {
    && (forall j :: 0 <= j < |rows| ==>
          rows[j].name in dynakubes && dynakubes[rows[j].name] == DynakubeRow(rows[j].tenantUUID, rows[j].latestVersion))
    && (forall j, k :: 0 <= j < k < |rows| ==> rows[j].name != rows[k].name)
    && (forall n :: n in dynakubes ==> exists j :: 0 <= j < |rows| && rows[j].name == n)
  }

  class Store {
    var volumes: map<string, Volume>
    var dynakubes: map<string, DynakubeRow>
    /** The calls that fail with a persistence error. */
    const faults: set<StoreOp>

    constructor (volumes: map<string, Volume>, dynakubes: map<string, DynakubeRow>, faults: set<StoreOp>)
      ensures this.volumes == volumes && this.dynakubes == dynakubes && this.faults == faults
    {
      this.volumes := volumes;
      this.dynakubes := dynakubes;
      this.faults := faults;
    }

    /** What `GetLatestVersions` answers in the current state. */
    function LatestVersionsResult(): Result<map<string, bool>, Error>
      reads this
    {
      if StoreOp.GetLatestVersions in faults then Failure(StoreError(StoreOp.GetLatestVersions))
      else Success(AsFlags(LatestVersions(dynakubes)))
    }

    /** What `GetAllUsedVersions` answers in the current state. */
    function UsedVersionsResult(): Result<map<string, bool>, Error>
      reads this
    {
      if StoreOp.GetAllUsedVersions in faults then Failure(StoreError(StoreOp.GetAllUsedVersions))
      else Success(AsFlags(UsedVersions(volumes)))
    }

    /** `GetLatestVersions`: every tenant's latest version flagged true, or
        the store's error. */
    method GetLatestVersions() returns (r: Result<map<string, bool>, Error>)
      ensures r == LatestVersionsResult()
      ensures r.Failure? <==> StoreOp.GetLatestVersions in faults
      ensures r.Success? ==> r.value.Keys == LatestVersions(dynakubes) && forall v :: v in r.value ==> r.value[v]
    {
      r := LatestVersionsResult();
    }

    /** `GetAllUsedVersions`: the version of every volume flagged true, or the
        store's error. */
    method GetAllUsedVersions() returns (r: Result<map<string, bool>, Error>)
      ensures r == UsedVersionsResult()
      ensures r.Failure? <==> StoreOp.GetAllUsedVersions in faults
      ensures r.Success? ==> r.value.Keys == UsedVersions(volumes) && forall v :: v in r.value ==> r.value[v]
    {
      r := UsedVersionsResult();
    }

    /** Pod name to volume ID. A pod with several volume rows keeps one of them. */
    method GetPodNames() returns (r: Result<map<string, string>, Error>)
      ensures StoreOp.GetPodNames in faults ==> r == Failure(StoreError(StoreOp.GetPodNames))
      ensures StoreOp.GetPodNames !in faults ==> r.Success? && IsPodIndex(volumes, r.value)
    {
      if StoreOp.GetPodNames in faults {
        return Failure(StoreError(StoreOp.GetPodNames));
      }
      var index: map<string, string> := map[];
      var todo := volumes.Keys;
      while todo != {}
        invariant todo <= volumes.Keys
        invariant forall p :: p in index ==> index[p] in volumes && volumes[index[p]].podName == p
        invariant forall id :: id in volumes && id !in todo ==> volumes[id].podName in index
        decreases todo
      {
        var id :| id in todo;
        index := index[volumes[id].podName := id];
        todo := todo - {id};
      }
      return Success(index);
    }

    /** DynaKube name to tenant UUID. */
    method GetTenantsToDynakubes() returns (r: Result<map<string, string>, Error>)
      ensures StoreOp.GetTenantsToDynakubes in faults ==> r == Failure(StoreError(StoreOp.GetTenantsToDynakubes))
      ensures StoreOp.GetTenantsToDynakubes !in faults ==> r.Success? && r.value.Keys == dynakubes.Keys
      ensures r.Success? ==> forall n :: n in r.value ==> r.value[n] == dynakubes[n].tenantUUID
    {
      if StoreOp.GetTenantsToDynakubes in faults {
        return Failure(StoreError(StoreOp.GetTenantsToDynakubes));
      }
      return Success(map n | n in dynakubes :: dynakubes[n].tenantUUID);
    }

    method GetAllDynakubes() returns (r: Result<seq<Dynakube>, Error>)
      ensures StoreOp.GetAllDynakubes in faults ==> r == Failure(StoreError(StoreOp.GetAllDynakubes))
      ensures StoreOp.GetAllDynakubes !in faults ==> r.Success? && IsSnapshot(dynakubes, r.value)
    {
      if StoreOp.GetAllDynakubes in faults {
        return Failure(StoreError(StoreOp.GetAllDynakubes));
      }
      var rows: seq<Dynakube> := [];
      var todo := dynakubes.Keys;
      while todo != {}
        invariant todo <= dynakubes.Keys
        invariant forall j :: 0 <= j < |rows| ==>
          rows[j].name in dynakubes && rows[j].name !in todo
          && dynakubes[rows[j].name] == DynakubeRow(rows[j].tenantUUID, rows[j].latestVersion)
        invariant forall j, k :: 0 <= j < k < |rows| ==> rows[j].name != rows[k].name
        invariant forall n :: n in dynakubes && n !in todo ==> exists j :: 0 <= j < |rows| && rows[j].name == n
        decreases todo
      {
        var n :| n in todo;
        ghost var before := rows;
        rows := rows + [Dynakube(n, dynakubes[n].tenantUUID, dynakubes[n].latestVersion)];
        todo := todo - {n};
        forall m | m in dynakubes && m !in todo
          ensures exists j :: 0 <= j < |rows| && rows[j].name == m
        {
          if m == n {
            assert rows[|before|].name == m;
          } else {
            var j :| 0 <= j < |before| && before[j].name == m;
            assert rows[j].name == m;
          }
        }
      }
      return Success(rows);
    }

    /** Deleting an absent volume is not an error. */
    method DeleteVolume(volumeID: string) returns (err: Option<Error>)
      modifies this
      ensures err == (if StoreOp.DeleteVolume(volumeID) in faults then Some(StoreError(StoreOp.DeleteVolume(volumeID))) else None)
      ensures volumes == if err.Some? then old(volumes) else old(volumes) - {volumeID}
      ensures dynakubes == old(dynakubes)
    {
      if StoreOp.DeleteVolume(volumeID) in faults {
        return Some(StoreError(StoreOp.DeleteVolume(volumeID)));
      }
      volumes := volumes - {volumeID};
      return None;
    }

    /** Deleting an absent tenant is not an error. */
    method DeleteDynakube(name: string) returns (err: Option<Error>)
      modifies this
      ensures err == (if StoreOp.DeleteDynakube(name) in faults then Some(StoreError(StoreOp.DeleteDynakube(name))) else None)
      ensures dynakubes == if err.Some? then old(dynakubes) else old(dynakubes) - {name}
      ensures volumes == old(volumes)
    {
      if StoreOp.DeleteDynakube(name) in faults {
        return Some(StoreError(StoreOp.DeleteDynakube(name)));
      }
      dynakubes := dynakubes - {name};
      return None;
    }
  }
}
