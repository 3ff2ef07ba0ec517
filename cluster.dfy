/** What this core reads from the Kubernetes API. */
module Cluster {
  import opened Wrappers
  import opened Failures

  /** The parts of a DynaKube custom resource the core looks at. `tenantUUID`
      is the outcome of deriving the tenant UUID from the resource's API URL. */
  datatype DynaKube = DynaKube(
    name: string,
    needAppInjection: bool,
    tenantUUID: Result<string, Error>,
    codeModulesImage: string,
    codeModulesVersion: string)

  /** The outcome of one `Get` against the API server. */
  datatype Lookup<T> = Found(obj: T) | NotFound | LookupFailed(error: Error)

  /** The live cluster as the correctness checker sees it: the names whose
      lookup answers NotFound. Any other outcome of a lookup (found, or another
      error) takes the same branch in the checker, so it needs no more. */
  datatype Cluster = Cluster(missingPods: set<string>, missingDynakubes: set<string>)
}
