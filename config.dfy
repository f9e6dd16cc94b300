/**
 * `Config` and `load_config_from_env` of run-with-macadam.py. The process
 * environment is a map, the home directory a string, and the file system is
 * reduced to the set of paths that exist.
 */
module MacadamConfig {
  import opened Text
  import opened Commands
  import opened BundlePaths

  const DefaultVmName := "crc-ng"
  const DefaultPassDeveloper := "P@ssd3v3loper"
  const DefaultPassKubeadmin := "P@sskub3admin"
  /** The default bundle "crc_vfkit_4.19.3_arm64.crcbundle", split at its last dot. */
  const DefaultBundleBase := "crc_vfkit_4.19.3_arm64"
  const DefaultBundleExtension := "crcbundle"

  datatype Config = Config(
    passDeveloper: string,
    passKubeadmin: string,
    crcBundlePath: string,
    pullSecretPath: string,
    vmName: string)

  /** Python `os.environ.get(key, default)`. */
  function EnvGet(env: map<string, string>, key: string, default: string): string {
    if key in env then env[key] else default
  }

  /**
   * The bundle used when `CRC_BUNDLE_PATH` is not set:
   * `Path.home() / "Downloads" / "crc_vfkit_4.19.3_arm64.crcbundle"`.
   */
  function DefaultBundlePath(home: string): string {
    home + "/Downloads" + "/" + DefaultBundleBase + "." + DefaultBundleExtension
  }

  /** The diagnostic for a pull-secret path that names no file. */
  function PullSecretNotFound(path: string): string {
    "Pull secret file not found at " + path + "."
  }

  /**
   * `load_config_from_env`: the pull-secret path is mandatory and must name
   * an existing file; everything else has a default.
   */
  function LoadConfigFromEnv(env: map<string, string>, home: string, existing: set<string>): Result<Config>
  {
    var pullSecretPath := EnvGet(env, "PULL_SECRET_PATH", "");
    if pullSecretPath == "" then
      Err(MacadamError("PULL_SECRET_PATH environment variable must be set."))
    else if pullSecretPath !in existing then
      Err(MacadamError(PullSecretNotFound(pullSecretPath)))
    else
      Ok(Config(
        passDeveloper := EnvGet(env, "PASS_DEVELOPER", DefaultPassDeveloper),
        passKubeadmin := EnvGet(env, "PASS_KUBEADMIN", DefaultPassKubeadmin),
        crcBundlePath := EnvGet(env, "CRC_BUNDLE_PATH", DefaultBundlePath(home)),
        pullSecretPath := pullSecretPath,
        vmName := DefaultVmName))
  }

  /**
   * What `load_config_from_env` promises: it fails, always with a
   * `MacadamError`, exactly when the pull-secret path is empty, unset or
   * names no existing file; otherwise each setting is the environment's
   * value or its default.
   */
  lemma LoadConfigFromEnvSpec(env: map<string, string>, home: string, existing: set<string>)
    ensures var r := LoadConfigFromEnv(env, home, existing);
      && (r.Err? <==> EnvGet(env, "PULL_SECRET_PATH", "") == "" || EnvGet(env, "PULL_SECRET_PATH", "") !in existing)
      && (r.Err? ==> r.error.MacadamError?)
      && ("PULL_SECRET_PATH" !in env ==> r == Err(MacadamError("PULL_SECRET_PATH environment variable must be set.")))
      && (r.Ok? ==> r.value.pullSecretPath == env["PULL_SECRET_PATH"] && r.value.pullSecretPath in existing)
      && (r.Ok? ==> r.value.vmName == "crc-ng")
      && (r.Ok? && "PASS_DEVELOPER" !in env ==> r.value.passDeveloper == "P@ssd3v3loper")
      && (r.Ok? && "PASS_KUBEADMIN" !in env ==> r.value.passKubeadmin == "P@sskub3admin")
      && (r.Ok? && "PASS_DEVELOPER" in env ==> r.value.passDeveloper == env["PASS_DEVELOPER"])
      && (r.Ok? && "PASS_KUBEADMIN" in env ==> r.value.passKubeadmin == env["PASS_KUBEADMIN"])
      && (r.Ok? && "CRC_BUNDLE_PATH" !in env ==> r.value.crcBundlePath == DefaultBundlePath(home))
      && (r.Ok? && "CRC_BUNDLE_PATH" in env ==> r.value.crcBundlePath == env["CRC_BUNDLE_PATH"])
  {
  }

  /**
   * An empty `PULL_SECRET_PATH` is treated like an unset one, whatever
   * files exist.
   */
  lemma EmptyPullSecretPathIsUnset(env: map<string, string>, home: string, existing: set<string>)
    requires "PULL_SECRET_PATH" in env && env["PULL_SECRET_PATH"] == ""
    ensures LoadConfigFromEnv(env, home, existing) == LoadConfigFromEnv(env - {"PULL_SECRET_PATH"}, home, existing)
  {
  }

  /** The default bundle's base name and extension are plain file-name parts. */
  lemma DefaultBundleNameParts()
    ensures Lacks(DefaultBundleBase, '/') && !EndsWith(DefaultBundleBase, ".tar") && DefaultBundleBase != ""
    ensures Lacks(DefaultBundleExtension, '/') && Lacks(DefaultBundleExtension, '.') && DefaultBundleExtension != ""
  {
    var base := DefaultBundleBase;
    assert base[|base| - 4..][3] == '4';
  }

  /**
   * With the default bundle, both extraction steps read their files from
   * the archive directory "crc_vfkit_4.19.3_arm64".
   */
  lemma DefaultBundleMember(home: string)
    ensures BundleStem(DefaultBundlePath(home)) == DefaultBundleBase
    ensures TarMember(DefaultBundlePath(home), DiskImageName) == "crc_vfkit_4.19.3_arm64/crc.qcow2"
  {
    DefaultBundleNameParts();
    StemOfPlainBundle(home + "/Downloads", DefaultBundleBase, DefaultBundleExtension);
  }
}
