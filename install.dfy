/** Install orchestration of the CSI provisioner: an abstract installer puts
    the agent into the shared binary directory of a digest or version, its
    Cleanup always runs, a failed or installed event is recorded, and the
    tenant's agent config directory is created only after a successful
    install. */
module Install {
  import opened Wrappers
  import opened Failures
  import opened Paths
  import opened Cluster

  datatype OsType = OsUnix
  datatype InstallerType = InstallerTypePaaS

  /** What the URL installer is asked to download. */
  datatype UrlProperties = UrlProperties(
    os: OsType,
    installerType: InstallerType,
    arch: string,
    flavor: string,
    technologies: seq<string>,
    targetVersion: string)

  /** `getUrlProperties`: a Unix PaaS installer of every technology for the
      build's architecture and flavor, at the target version. */
  function GetUrlProperties(targetVersion: string, arch: string, flavor: string): (p: UrlProperties)
    ensures p.targetVersion == targetVersion
    ensures p.os == OsUnix && p.installerType == InstallerTypePaaS
    ensures p.technologies == ["all"]
    ensures p.arch == arch && p.flavor == flavor
  {
    UrlProperties(OsUnix, InstallerTypePaaS, arch, flavor, ["all"], targetVersion)
  }

  /** The two installer strategies. */
  datatype Installer = UrlInstaller(properties: UrlProperties) | ImageInstaller(imageUri: string, imageDigest: string)

  /** What `InstallAgent(targetDir)` reports. */
  datatype InstallOutcome = Installed(isNewlyInstalled: bool) | InstallFailed(error: Error)

  /** The collaborators install orchestration calls into. */
  datatype Env = Env(
    dockerConfigStored: bool,                       // pull-secret files can be stored
    imageDigests: map<string, string>,              // images an image installer can be created for, with their digest
    install: (Installer, Path) -> InstallOutcome,   // the installer's behaviour per target directory
    configDirCreated: bool,                         // the agent config directory can be created
    arch: string,
    flavor: string)

  /** An observable effect, in the order it happens. */
  datatype Step =
    | StoreDockerConfig(dynakube: string)
    | InstallAgent(installer: Installer, targetDir: Path)
    | Cleanup(installer: Installer)
    | FailedInstallEvent(dynakube: string, version: string, tenantUUID: string)
    | InstalledEvent(dynakube: string, version: string, tenantUUID: string)
    | CreateAgentConfigDir(configDir: Path, targetDir: Path)

  predicate IsEvent(s: Step)
  {
    s.FailedInstallEvent? || s.InstalledEvent?
  }

  /** The effects of `installAgent`: the install, at most one event, and the
      deferred Cleanup last. */
  function InstallAgentSteps(installer: Installer, outcome: InstallOutcome, targetDir: Path, dynakube: string, version: string, tenantUUID: string): (s: seq<Step>)
    ensures 2 <= |s| <= 3 && s[0] == InstallAgent(installer, targetDir) && s[|s| - 1] == Cleanup(installer)
    ensures |s| == 3 ==> s[1] == if outcome.InstallFailed? then FailedInstallEvent(dynakube, version, tenantUUID)
                                  else InstalledEvent(dynakube, version, tenantUUID)
  {
    var events :=
      if outcome.InstallFailed? then [FailedInstallEvent(dynakube, version, tenantUUID)]
      else if outcome.isNewlyInstalled then [InstalledEvent(dynakube, version, tenantUUID)]
      else [];
    [InstallAgent(installer, targetDir)] + events + [Cleanup(installer)]
  }

  /** Cleanup runs exactly once, a failed install records exactly one failed
      event and no installed event, a fresh install exactly one installed
      event, and an install that found the agent present records none. */
  lemma InstallAgentEvents(installer: Installer, outcome: InstallOutcome, targetDir: Path, dynakube: string, version: string, tenantUUID: string)
    ensures var s := InstallAgentSteps(installer, outcome, targetDir, dynakube, version, tenantUUID);
      && multiset(s)[Cleanup(installer)] == 1
      && multiset(s)[FailedInstallEvent(dynakube, version, tenantUUID)] == (if outcome.InstallFailed? then 1 else 0)
      && multiset(s)[InstalledEvent(dynakube, version, tenantUUID)] == (if outcome == Installed(true) then 1 else 0)
      && (forall x :: x in s && IsEvent(x) ==>
            x == FailedInstallEvent(dynakube, version, tenantUUID) || x == InstalledEvent(dynakube, version, tenantUUID))
      && (outcome.InstallFailed? ==> forall x :: x in s ==> !x.InstalledEvent?)
      && (outcome == Installed(false) ==> forall x :: x in s ==> !IsEvent(x))
  {
  }

  /** The effects and result of one install call. */
  datatype InstallRun = InstallRun(steps: seq<Step>, version: string, err: Option<Error>)

  /** What `installAgentZip` does for a DynaKube. */
  function ZipInstall(env: Env, dynakube: DynaKube): (r: InstallRun)
    ensures dynakube.tenantUUID.Failure? ==>
      r == InstallRun([], "", Some(dynakube.tenantUUID.error))
    ensures r.err.None? <==>
      dynakube.tenantUUID.Success? && env.install(UrlInstaller(GetUrlProperties(dynakube.codeModulesVersion, env.arch, env.flavor)), SharedBinaryDir(dynakube.codeModulesVersion)).Installed?
      && env.configDirCreated
    ensures r.err.None? ==> r.version == dynakube.codeModulesVersion
    ensures r.err.Some? ==> r.version == ""
    ensures dynakube.tenantUUID.Success? ==>
      |r.steps| > 0 && r.steps[0] == InstallAgent(UrlInstaller(GetUrlProperties(dynakube.codeModulesVersion, env.arch, env.flavor)), SharedBinaryDir(dynakube.codeModulesVersion))
    // the steps open with `installAgent` for the version's directory, whose Cleanup follows the install
    ensures dynakube.tenantUUID.Success? ==>
      var installer := UrlInstaller(GetUrlProperties(dynakube.codeModulesVersion, env.arch, env.flavor));
      var targetDir := SharedBinaryDir(dynakube.codeModulesVersion);
      var s := InstallAgentSteps(installer, env.install(installer, targetDir), targetDir, dynakube.name, dynakube.codeModulesVersion, dynakube.tenantUUID.value);
      |s| <= |r.steps| && r.steps[..|s|] == s
  {
    match dynakube.tenantUUID
    case Failure(e) => InstallRun([], "", Some(e))
    case Success(tenantUUID) =>
      var targetVersion := dynakube.codeModulesVersion;
      var installer := UrlInstaller(GetUrlProperties(targetVersion, env.arch, env.flavor));
      var targetDir := SharedBinaryDir(targetVersion);
      var outcome := env.install(installer, targetDir);
      var steps := InstallAgentSteps(installer, outcome, targetDir, dynakube.name, targetVersion, tenantUUID);
      if outcome.InstallFailed? then InstallRun(steps, "", Some(outcome.error))
      else
        var steps' := steps + [CreateAgentConfigDir(AgentConfigDir(tenantUUID), targetDir)];
        if !env.configDirCreated then InstallRun(steps', "", Some(ConfigDirError))
        else InstallRun(steps', targetVersion, None)
  }

  /** What `installAgentImage` does for a DynaKube. The events name the image
      reference, the target directory its digest. */
  function ImageInstall(env: Env, dynakube: DynaKube): (r: InstallRun)
    ensures dynakube.tenantUUID.Failure? ==>
      r == InstallRun([], "", Some(dynakube.tenantUUID.error))
    ensures r.err.None? <==>
      && dynakube.tenantUUID.Success? && env.dockerConfigStored
      && dynakube.codeModulesImage in env.imageDigests
      && env.install(ImageInstaller(dynakube.codeModulesImage, env.imageDigests[dynakube.codeModulesImage]),
                     SharedBinaryDir(env.imageDigests[dynakube.codeModulesImage])).Installed?
      && env.configDirCreated
    ensures r.err.None? ==> r.version == env.imageDigests[dynakube.codeModulesImage]
    ensures r.err.Some? ==> r.version == ""
    // the pull secret is stored first
    ensures dynakube.tenantUUID.Success? ==> |r.steps| > 0 && r.steps[0] == StoreDockerConfig(dynakube.name)
    // without pull secret or installer, nothing else happens
    ensures dynakube.tenantUUID.Success? && !env.dockerConfigStored ==>
      r.steps == [StoreDockerConfig(dynakube.name)] && r.err == Some(DockerConfigError)
    ensures dynakube.tenantUUID.Success? && env.dockerConfigStored && dynakube.codeModulesImage !in env.imageDigests ==>
      r.steps == [StoreDockerConfig(dynakube.name)] && r.err == Some(ImageInstallerError)
    // then `installAgent` into the directory keyed by the image's digest, whose Cleanup follows the install
    ensures dynakube.tenantUUID.Success? && env.dockerConfigStored && dynakube.codeModulesImage in env.imageDigests ==>
      var digest := env.imageDigests[dynakube.codeModulesImage];
      var installer := ImageInstaller(dynakube.codeModulesImage, digest);
      var s := InstallAgentSteps(installer, env.install(installer, SharedBinaryDir(digest)), SharedBinaryDir(digest),
                                 dynakube.name, dynakube.codeModulesImage, dynakube.tenantUUID.value);
      1 + |s| <= |r.steps| && r.steps[1..1 + |s|] == s
  {
    match dynakube.tenantUUID
    case Failure(e) => InstallRun([], "", Some(e))
    case Success(tenantUUID) =>
      var stored := [StoreDockerConfig(dynakube.name)];
      if !env.dockerConfigStored then InstallRun(stored, "", Some(DockerConfigError))
      else if dynakube.codeModulesImage !in env.imageDigests then InstallRun(stored, "", Some(ImageInstallerError))
      else
        var targetImage := dynakube.codeModulesImage;
        var digest := env.imageDigests[targetImage];
        var installer := ImageInstaller(targetImage, digest);
        var targetDir := SharedBinaryDir(digest);
        var outcome := env.install(installer, targetDir);
        var steps := stored + InstallAgentSteps(installer, outcome, targetDir, dynakube.name, targetImage, tenantUUID);
        if outcome.InstallFailed? then InstallRun(steps, "", Some(outcome.error))
        else
          var steps' := steps + [CreateAgentConfigDir(AgentConfigDir(tenantUUID), targetDir)];
          if !env.configDirCreated then InstallRun(steps', "", Some(ConfigDirError))
          else InstallRun(steps', digest, None)
  }

  /** The agent config directory is only ever created as the last step, right
      after the Cleanup of an install that did not fail. */
  ghost predicate ConfigDirAfterInstall(steps: seq<Step>)
  {
    forall i :: 0 <= i < |steps| && steps[i].CreateAgentConfigDir? ==>
      && i == |steps| - 1
      && i >= 2
      && steps[i - 1].Cleanup?
      && !steps[i - 2].FailedInstallEvent?
  }

  lemma ZipInstallConfigDirLast(env: Env, dynakube: DynaKube)
    ensures ConfigDirAfterInstall(ZipInstall(env, dynakube).steps)
  {
    var r := ZipInstall(env, dynakube);
    if dynakube.tenantUUID.Success? {
      var targetVersion := dynakube.codeModulesVersion;
      var installer := UrlInstaller(GetUrlProperties(targetVersion, env.arch, env.flavor));
      var outcome := env.install(installer, SharedBinaryDir(targetVersion));
      var steps := InstallAgentSteps(installer, outcome, SharedBinaryDir(targetVersion), dynakube.name, targetVersion, dynakube.tenantUUID.value);
      assert forall i :: 0 <= i < |steps| ==> !steps[i].CreateAgentConfigDir?;
    }
  }

  lemma ImageInstallConfigDirLast(env: Env, dynakube: DynaKube)
    ensures ConfigDirAfterInstall(ImageInstall(env, dynakube).steps)
  {
    var r := ImageInstall(env, dynakube);
    if dynakube.tenantUUID.Success? && env.dockerConfigStored && dynakube.codeModulesImage in env.imageDigests {
      var targetImage := dynakube.codeModulesImage;
      var digest := env.imageDigests[targetImage];
      var installer := ImageInstaller(targetImage, digest);
      var outcome := env.install(installer, SharedBinaryDir(digest));
      var steps := [StoreDockerConfig(dynakube.name)]
        + InstallAgentSteps(installer, outcome, SharedBinaryDir(digest), dynakube.name, targetImage, dynakube.tenantUUID.value);
      assert forall i :: 0 <= i < |steps| ==> !steps[i].CreateAgentConfigDir?;
    }
  }

  class OneAgentProvisioner {
    const env: Env
    /** Every effect so far, in order. */
    var trace: seq<Step>

    constructor (env: Env)
      ensures this.env == env && trace == []
    {
      this.env := env;
      trace := [];
    }

    /** `installAgent`. Cleanup is deferred, so it is the last effect on
        every path. */
    method InstallAgent(installer: Installer, dynakube: DynaKube, targetDir: Path, targetVersion: string, tenantUUID: string)
      returns (err: Option<Error>)
      modifies this
      ensures trace == old(trace) + InstallAgentSteps(installer, env.install(installer, targetDir), targetDir, dynakube.name, targetVersion, tenantUUID)
      ensures err == match env.install(installer, targetDir) case InstallFailed(e) => Some(e) case Installed(_) => None
    {
      var outcome := env.install(installer, targetDir);
      trace := trace + [Step.InstallAgent(installer, targetDir)];
      if outcome.InstallFailed? {
        trace := trace + [FailedInstallEvent(dynakube.name, targetVersion, tenantUUID)];
        trace := trace + [Cleanup(installer)];
        return Some(outcome.error);
      }
      if outcome.isNewlyInstalled {
        trace := trace + [InstalledEvent(dynakube.name, targetVersion, tenantUUID)];
      }
      trace := trace + [Cleanup(installer)];
      return None;
    }

    /** `installAgentZip`. */
    method InstallAgentZip(dynakube: DynaKube) returns (version: string, err: Option<Error>)
      modifies this
      ensures trace == old(trace) + ZipInstall(env, dynakube).steps
      ensures version == ZipInstall(env, dynakube).version && err == ZipInstall(env, dynakube).err
    {
      if dynakube.tenantUUID.Failure? {
        return "", Some(dynakube.tenantUUID.error);
      }
      var tenantUUID := dynakube.tenantUUID.value;
      var targetVersion := dynakube.codeModulesVersion;
      var urlInstaller := UrlInstaller(GetUrlProperties(targetVersion, env.arch, env.flavor));
      var targetDir := SharedBinaryDir(targetVersion);
      var targetConfigDir := AgentConfigDir(tenantUUID);
      var e := InstallAgent(urlInstaller, dynakube, targetDir, targetVersion, tenantUUID);
      if e.Some? {
        return "", e;
      }
      trace := trace + [CreateAgentConfigDir(targetConfigDir, targetDir)];
      if !env.configDirCreated {
        return "", Some(ConfigDirError);
      }
      return targetVersion, None;
    }

    /** `installAgentImage`. */
    method InstallAgentImage(dynakube: DynaKube) returns (version: string, err: Option<Error>)
      modifies this
      ensures trace == old(trace) + ImageInstall(env, dynakube).steps
      ensures version == ImageInstall(env, dynakube).version && err == ImageInstall(env, dynakube).err
    {
      if dynakube.tenantUUID.Failure? {
        return "", Some(dynakube.tenantUUID.error);
      }
      var tenantUUID := dynakube.tenantUUID.value;
      trace := trace + [StoreDockerConfig(dynakube.name)];
      if !env.dockerConfigStored {
        return "", Some(DockerConfigError);
      }
      var targetImage := dynakube.codeModulesImage;
      if targetImage !in env.imageDigests {
        return "", Some(ImageInstallerError);
      }
      var imageInstaller := ImageInstaller(targetImage, env.imageDigests[targetImage]);
      var targetDir := SharedBinaryDir(imageInstaller.imageDigest);
      var targetConfigDir := AgentConfigDir(tenantUUID);
      var e := InstallAgent(imageInstaller, dynakube, targetDir, targetImage, tenantUUID);
      if e.Some? {
        return "", e;
      }
      trace := trace + [CreateAgentConfigDir(targetConfigDir, targetDir)];
      if !env.configDirCreated {
        return "", Some(ConfigDirError);
      }
      return imageInstaller.imageDigest, None;
    }
  }
}
