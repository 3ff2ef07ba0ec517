/** The path resolver: deterministic locations under the CSI data directory.
    Locations are a datatype rather than strings, so two different keys can
    never name the same directory (the resolver's injectivity). */
module Paths {

  datatype Path =
    | SharedBinaryDirBase                                 // root of the shared agent binaries
    | SharedBinaryDir(agent: string)                      // one shared binary, keyed by digest or version
    | AgentConfigDir(tenantUUID: string)                  // per-tenant agent configuration
    | AgentBinaryDirForVersion(tenantUUID: string, version: string)  // deprecated per-tenant binary layout
}
