/** The errors the storage-and-reclamation core can surface. */
module Failures {
  import opened Paths

  /** A call into the metadata store (`metadata.Access`). The store's fault
      model names the calls that fail, and a store error says which one did. */
  datatype StoreOp =
    | GetPodNames
    | GetTenantsToDynakubes
    | GetAllDynakubes
    | GetLatestVersions
    | GetAllUsedVersions
    | DeleteVolume(volumeID: string)
    | DeleteDynakube(name: string)

  datatype Error =
    | StoreError(op: StoreOp)          // persistence failure of one store call
    | ReadDirError(dir: Path)          // listing a directory failed for a reason other than absence
    | RemoveError(dir: Path)           // `RemoveAll` of a directory failed
    | ClusterError                     // a Kubernetes API read failed with something other than NotFound
    | Cancelled                        // `ctx.Err()` of a cancelled context
    | TenantUUIDError                  // the tenant UUID cannot be derived from the API URL
    | DockerConfigError                // storing the pull-secret files failed
    | ImageInstallerError              // the image installer could not be created
    | InstallError                     // the installer failed to install the agent
    | ConfigDirError                   // creating the agent config directory failed
}
