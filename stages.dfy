/**
 * The stages of run-with-macadam.py as values. Each stage is a function of
 * the answers of the machine (`Host`) and of the module-level `state` record
 * it starts from, giving the record it leaves, the commands it launches and
 * the requests it posts, in order, the path entries it reads while they are
 * unset, and how it ends. `main` is the run of the stages in source order
 * that stops at the first one that does not return. The `Session` class of
 * the `Pipeline` module performs the same stages in place and is proved to
 * match these functions.
 */
module Stages {
  import opened Optional
  import opened Text
  import opened Commands
  import opened MacadamConfig
  import opened BundlePaths
  import opened GvproxyDiscovery
  import opened Readiness

  /** One DNS record of a zone. */
  datatype DnsRecord = DnsRecord(name: string, ip: string)

  /** The JSON bodies posted to gvproxy: a DNS zone, or a port-forward request. */
  datatype Request =
    | DnsZone(zoneName: string, records: seq<DnsRecord>, defaultIp: Option<string>)
    | Expose(local: string, remote: string, protocol: string)

  /** An externally visible effect: a launched command, or a POST to gvproxy. */
  datatype Action = Run(argv: seq<string>) | Post(endpoint: string, request: Request)

  /** What the HTTP exchange over the gvproxy socket produced. */
  datatype HttpReply = Status(code: nat) | ConnectionFailed(message: string) | HttpInterrupted

  /** The path-valued entries of `state`. */
  datatype Field =
    PrivKeyPath | PubKeyPath | UserDataPath | DiskImagePath | GvproxySocketPath | OcBinaryPath | KubeconfigPath

  const AllFields: set<Field> :=
    {PrivKeyPath, PubKeyPath, UserDataPath, DiskImagePath, GvproxySocketPath, OcBinaryPath, KubeconfigPath}

  /** The stages `main` runs. */
  datatype Stage =
    | LoadConfig | EnsureDependencies | GenerateSshKeypair | LoadResources | GenerateCloudInit
    | ExtractDiskImage | ExtractOcBinary | EnsureMacadam | EnsureGvproxy | StartVm
    | AddApiServerDns | ForwardPort | UpdateHostsFile | CheckClusterStatus

  /** Every stage but the loading of the configuration, which the others receive. */
  type LaterStage = s: Stage | !s.LoadConfig? witness EnsureDependencies

  /** The stages after `load_config_from_env`, in the order `main` calls them. */
  const AfterConfig: seq<LaterStage> := [
    EnsureDependencies, GenerateSshKeypair, LoadResources, GenerateCloudInit,
    ExtractDiskImage, ExtractOcBinary, EnsureMacadam, EnsureGvproxy, StartVm,
    AddApiServerDns, ForwardPort, UpdateHostsFile, CheckClusterStatus]

  const PipelineOrder: seq<Stage> := [LoadConfig] + AfterConfig

  /**
   * The answers of the machine the script runs on. `existing` is the set of
   * paths that exist when the run starts; the `...Size` fields are the sizes
   * of the files a command has just written (0 also standing for a missing
   * file); the attempt sequences feed the four polling loops.
   */
  datatype Host = Host(
    env: map<string, string>,
    home: string,
    cwd: string,
    existing: set<string>,
    pullSecretText: string,
    dependencies: Outcome,
    keygen: Invocation,
    pubKeyText: Option<string>,
    diskTar: Invocation,
    diskImageSize: nat,
    ocTar: Invocation,
    ocBinarySize: nat,
    chmod: Invocation,
    macadamSetup: Outcome,
    gvproxySetup: Outcome,
    vmInit: Invocation,
    vmStart: Invocation,
    pgrepAtDns: Invocation,
    crcZoneReply: HttpReply,
    appsZoneReply: HttpReply,
    forwardReply: HttpReply,
    hostsUpdate: Invocation,
    sshAttempts: seq<Invocation>,
    kubeconfigAttempts: seq<Invocation>,
    pgrepAtCopy: Invocation,
    scp: Invocation,
    kubeconfigSize: nat,
    nodeAttempts: seq<Invocation>,
    stabilityAttempts: seq<Invocation>)

  /** The module-level `state` record: seven optional paths and two texts. */
  datatype State = State(
    privKeyPath: Option<string>,
    pubKeyPath: Option<string>,
    userDataPath: Option<string>,
    diskImagePath: Option<string>,
    gvproxySocketPath: Option<string>,
    ocBinaryPath: Option<string>,
    kubeconfigPath: Option<string>,
    pullSecret: string,
    pubKey: string)

  /** The record as the module defines it: every path unset, both texts empty. */
  const InitialState := State(None, None, None, None, None, None, None, "", "")

  function Get(s: State, f: Field): Option<string> {
    match f
    case PrivKeyPath => s.privKeyPath
    case PubKeyPath => s.pubKeyPath
    case UserDataPath => s.userDataPath
    case DiskImagePath => s.diskImagePath
    case GvproxySocketPath => s.gvproxySocketPath
    case OcBinaryPath => s.ocBinaryPath
    case KubeconfigPath => s.kubeconfigPath
  }

  /** A path entry holding a non-empty path: one that Python treats as true. */
  predicate IsSet(v: Option<string>) {
    v.Some? && v.value != ""
  }

  /** Python `str()` of an optional path: the path, or "None" while unset. */
  function PathArg(p: Option<string>): string {
    if p.Some? then p.value else "None"
  }

  /** What reading the entry `f` of `s` records: `[f]` while it is unset. */
  function ReadOf(f: Field, s: State): seq<Field> {
    if Get(s, f).None? then [f] else []
  }

  /** `Path.cwd() / name`, for a working directory given without a trailing "/". */
  function InCwd(host: Host, name: string): (p: string)
    ensures p != ""
  {
    host.cwd + "/" + name
  }

  const KeyFileName := "id_rsa_temp"

  function KeygenArgv(keyFile: string): seq<string> {
    ["ssh-keygen", "-t", "rsa", "-b", "4096", "-f", keyFile, "-N", "", "-C", "crc-macadam-ci"]
  }

  function ExtractArgv(bundlePath: string, name: string): seq<string> {
    ["tar", "--zstd", "-O", "-xf", bundlePath, TarMember(bundlePath, name)]
  }

  function InitArgv(diskImage: string, privKey: string, userData: string): seq<string> {
    ["macadam", "init", diskImage,
     "--disk-size", "31", "--memory", "11264", "--name", "crc-ng",
     "--username", "core", "--ssh-identity-path", privKey,
     "--cpus", "6", "--cloud-init", userData,
     "--log-level", "debug"]
  }

  const StartArgv: seq<string> := ["macadam", "start", "crc-ng", "--log-level", "debug"]

  function ScpArgv(port: string, privKey: string, kubeconfig: string): seq<string> {
    ["scp", "-P", port, "-i", privKey,
     "-o", "StrictHostKeyChecking=no", "-o", "UserKnownHostsFile=/dev/null",
     "core@127.0.0.1:/opt/kubeconfig", kubeconfig]
  }

  function ChmodArgv(path: string): seq<string> {
    ["chmod", "+x", path]
  }

  const HostsArgv: seq<string> := ["sudo", "bash", "-c", "echo '127.0.0.1 api.crc.testing' >> /etc/hosts"]

  const UserDataFile := "user-data"
  const KubeconfigFile := "kubeconfig"

  const DnsEndpoint := "/services/dns/add"
  const ExposeEndpoint := "/services/forwarder/expose"

  /** The "crc.testing." zone: the host, the API server (twice) and the VM. */
  const CrcZone := DnsZone("crc.testing.", [
      DnsRecord("host", "192.168.127.254"),
      DnsRecord("api", "192.168.127.2"),
      DnsRecord("api-int", "192.168.127.2"),
      DnsRecord("crc", "192.168.126.11")], None)

  /** The "apps-crc.testing." zone: every name resolves to the VM's address. */
  const AppsZone := DnsZone("apps-crc.testing.", [], Some("192.168.127.2"))

  /** Forward the host's 127.0.0.1:6443 to the API server inside the VM. */
  const ApiForward := Expose("127.0.0.1:6443", "192.168.127.2:6443", "tcp")

  const KeygenFailed := "Failed to generate SSH keypair."
  const DiskImageEmpty := "Failed to extract disk image from bundle."
  const OcBinaryEmpty := "Failed to extract oc binary from bundle."
  const VmInitFailed := "Failed to initialize VM with macadam."
  const SocketPathUnset := "gvproxy socket path not set."
  const HostsEntryFailed := "unable to add api.crc.testing entry to hosts file"
  const KubeconfigEmpty := "Failed to copy kubeconfig from VM."

  /** The diagnostic of `load_resources` when the public key file is absent. */
  function PubKeyNotFound(path: string): string {
    "Public key file not found at " + path + ". This should have been generated."
  }

  /** The diagnostic of both extraction steps when the bundle is absent. */
  function BundleNotFound(path: string): string {
    "CRC bundle not found at " + path + "."
  }

  /** The diagnostic of `gvproxy_post` for a reply other than 200. */
  function PostFailed(endpoint: string, status: nat): string {
    "gvproxy POST to " + endpoint + " failed with status " + Decimal(status)
  }

  /**
   * How `gvproxy_post` ends once its request is sent: only status 200 is
   * success; another status is a `MacadamError` naming endpoint and
   * status; a failed connection or an interrupt propagates.
   */
  function PostOutcome(endpoint: string, reply: HttpReply): (o: Outcome)
    ensures o.Done? <==> reply == Status(200)
  {
    match reply
    case Status(code) => if code == 200 then Done else Raised(MacadamError(PostFailed(endpoint, code)))
    case ConnectionFailed(m) => Raised(OtherError(m))
    case HttpInterrupted => Raised(KeyboardInterrupt)
  }

  /**
   * A status other than 200 is a `MacadamError` that names the endpoint and
   * the status, and different statuses give different diagnostics; a failed
   * connection and an interrupt propagate as they are.
   */
  lemma PostOutcomeSpec(endpoint: string, reply: HttpReply, other: nat)
    ensures reply.Status? && reply.code != 200 ==> PostOutcome(endpoint, reply) == Raised(MacadamError(PostFailed(endpoint, reply.code)))
    ensures reply.Status? && reply.code != 200 && other != 200 && other != reply.code ==>
      PostOutcome(endpoint, reply) != PostOutcome(endpoint, Status(other))
    ensures reply.ConnectionFailed? ==> PostOutcome(endpoint, reply) == Raised(OtherError(reply.message))
    ensures reply.HttpInterrupted? ==> PostOutcome(endpoint, reply) == Raised(KeyboardInterrupt)
  {
    if reply.Status? && reply.code != 200 && other != 200 && other != reply.code {
      var prefix := "gvproxy POST to " + endpoint + " failed with status ";
      assert PostFailed(endpoint, reply.code) == prefix + Decimal(reply.code);
      assert PostFailed(endpoint, other) == prefix + Decimal(other);
      if PostFailed(endpoint, reply.code) == PostFailed(endpoint, other) {
        DecimalFieldInjective(prefix, reply.code, [], other, []);
      }
    }
  }

  /** `n` launches of the same command. */
  function Repeat(a: Action, n: nat): (r: seq<Action>)
    ensures |r| == n && forall j | 0 <= j < n :: r[j] == a
  {
    if n == 0 then [] else Repeat(a, n - 1) + [a]
  }

  /** How a stage ended: it returned, it raised, or one of its polling loops was still waiting. */
  datatype End = Returned | Threw(error: Exception) | Waiting

  /**
   * What running a stage, or several in a row, did: the record it leaves,
   * the commands launched and requests posted, the entries read while
   * unset, and how it ended.
   */
  datatype Step = Step(state: State, log: seq<Action>, unsetReads: seq<Field>, end: End)

  /** A command that `run_command(..., check=True)` lets pass: it ran and exited with status 0. */
  predicate Succeeds(inv: Invocation) {
    inv.Exited? && inv.result.returncode == 0
  }

  /**
   * A polling loop meets a ready attempt: some attempt completes and passes
   * the test after every earlier one completed without passing it.
   */
  predicate Converges(p: Probe, attempts: seq<Invocation>) {
    exists n | 0 <= n < |attempts| ::
      && attempts[n].Exited? && Ready(p, attempts[n].result)
      && forall j | 0 <= j < n :: attempts[j].Exited? && !Ready(p, attempts[j].result)
  }

  /** A step that does nothing and returns. */
  function Skip(s: State): Step {
    Step(s, [], [], Returned)
  }

  /** `a` followed by `b`, where `b` started from the record `a` left. */
  function Chain(a: Step, b: Step): Step {
    Step(b.state, a.log + b.log, a.unsetReads + b.unsetReads, b.end)
  }

  /** Python sequencing: `b` runs only if `a` returned. */
  function Then(a: Step, b: Step): Step {
    if a.end.Returned? then Chain(a, b) else a
  }

  function OfOutcome(o: Outcome): End {
    if o.Done? then Returned else Threw(o.error)
  }

  /** A polling loop ends as the stage containing it: converged means the stage goes on. */
  function OfPoll(p: PollResult): End {
    match p
    case Converged => Returned
    case PollRaised(e) => Threw(e)
    case StillPolling => Waiting
  }

  /** `ensure_dependencies`, `ensure_macadam_exists`, `ensure_gvproxy_exists`: the host's answer, nothing else. */
  function SetupStep(o: Outcome, s: State): Step {
    Step(s, [], [], OfOutcome(o))
  }

  /**
   * `generate_ssh_keypair`: run `ssh-keygen` for `id_rsa_temp` in the
   * working directory; both key paths are recorded only after it succeeds.
   */
  function GenerateSshKeypairStep(host: Host, s: State): Step {
    var key := InCwd(host, KeyFileName);
    var argv := KeygenArgv(key);
    var r := RunCommand(argv, host.keygen, true);
    if r.Err? then
      Step(s, [Run(argv)], [], Threw(if r.error.IsMacadamError() then MacadamError(KeygenFailed) else r.error))
    else
      Step(s.(privKeyPath := Some(key), pubKeyPath := Some(key + ".pub")), [Run(argv)], [], Returned)
  }

  /**
   * `load_resources`: re-check the pull secret, require the generated
   * public key, then keep both files' stripped text.
   */
  function LoadResourcesStep(config: Config, host: Host, s: State): Step {
    if config.pullSecretPath !in host.existing then
      Step(s, [], [], Threw(MacadamError(PullSecretNotFound(config.pullSecretPath))))
    else if s.pubKeyPath.None? || host.pubKeyText.None? then
      Step(s, [], ReadOf(PubKeyPath, s), Threw(MacadamError(PubKeyNotFound(PathArg(s.pubKeyPath)))))
    else
      Step(s.(pullSecret := Strip(host.pullSecretText), pubKey := Strip(host.pubKeyText.value)), [], [], Returned)
  }

  /** `generate_cloud_init`: write `user-data` in the working directory and record its path. */
  function GenerateCloudInitStep(host: Host, s: State): Step {
    Step(s.(userDataPath := Some(InCwd(host, UserDataFile))), [], [], Returned)
  }

  /**
   * `extract_disk_image`: stream the bundle member `<stem>/crc.qcow2` into
   * `crc.qcow2`. The path is recorded as soon as `tar` succeeds, before the
   * emptiness check.
   */
  function ExtractDiskImageStep(config: Config, host: Host, s: State): Step {
    if config.crcBundlePath !in host.existing then
      Step(s, [], [], Threw(MacadamError(BundleNotFound(config.crcBundlePath))))
    else
      var argv := ExtractArgv(config.crcBundlePath, DiskImageName);
      var r := RunCommand(argv, host.diskTar, true);
      if r.Err? then Step(s, [Run(argv)], [], Threw(r.error))
      else
        var s' := s.(diskImagePath := Some(InCwd(host, DiskImageName)));
        if host.diskImageSize == 0 then Step(s', [Run(argv)], [], Threw(MacadamError(DiskImageEmpty)))
        else Step(s', [Run(argv)], [], Returned)
  }

  /**
   * `extract_oc_binary`: the same extraction for `<stem>/oc`, then
   * `chmod +x` on the result; again the path is recorded before the
   * emptiness check.
   */
  function ExtractOcBinaryStep(config: Config, host: Host, s: State): Step {
    if config.crcBundlePath !in host.existing then
      Step(s, [], [], Threw(MacadamError(BundleNotFound(config.crcBundlePath))))
    else
      var argv := ExtractArgv(config.crcBundlePath, OcBinaryName);
      var r := RunCommand(argv, host.ocTar, true);
      if r.Err? then Step(s, [Run(argv)], [], Threw(r.error))
      else
        var oc := InCwd(host, OcBinaryName);
        var s' := s.(ocBinaryPath := Some(oc));
        if host.ocBinarySize == 0 then Step(s', [Run(argv)], [], Threw(MacadamError(OcBinaryEmpty)))
        else
          var c := RunCommand(ChmodArgv(oc), host.chmod, true);
          Step(s', [Run(argv), Run(ChmodArgv(oc))], [], if c.Ok? then Returned else Threw(c.error))
  }

  /**
   * `start_macadam_vm`: `macadam init` with the recorded disk image, private
   * key and user data; `macadam start` runs unchecked afterwards.
   */
  function StartMacadamVmStep(host: Host, s: State): Step {
    var unsetReads := ReadOf(DiskImagePath, s) + ReadOf(PrivKeyPath, s) + ReadOf(UserDataPath, s);
    var init := InitArgv(PathArg(s.diskImagePath), PathArg(s.privKeyPath), PathArg(s.userDataPath));
    var r := RunCommand(init, host.vmInit, true);
    if r.Err? then
      Step(s, [Run(init)], unsetReads, Threw(if r.error.IsMacadamError() then VMError(VmInitFailed) else r.error))
    else
      var started := RunCommand(StartArgv, host.vmStart, false);
      Step(s, [Run(init), Run(StartArgv)], unsetReads, if started.Ok? then Returned else Threw(started.error))
  }

  /** `gvproxy_post`: refuse while the socket path is unset or empty, else post and judge the reply. */
  function GvproxyPostStep(endpoint: string, request: Request, reply: HttpReply, s: State): Step {
    var unsetReads := ReadOf(GvproxySocketPath, s);
    if !IsSet(s.gvproxySocketPath) then Step(s, [], unsetReads, Threw(MacadamError(SocketPathUnset)))
    else Step(s, [Post(endpoint, request)], unsetReads, OfOutcome(PostOutcome(endpoint, reply)))
  }

  /**
   * `add_api_server_dns`: discover and record the socket path, then post
   * the two zones in list order, the second only if the first succeeded.
   */
  function AddApiServerDnsStep(host: Host, s: State): Step {
    var d := GetGvproxySocketPath(host.pgrepAtDns);
    if d.Err? then Step(s, [Run(PgrepArgv)], [], Threw(d.error))
    else
      var found := Step(s.(gvproxySocketPath := Some(d.value)), [Run(PgrepArgv)], [], Returned);
      var crc := GvproxyPostStep(DnsEndpoint, CrcZone, host.crcZoneReply, found.state);
      var apps := GvproxyPostStep(DnsEndpoint, AppsZone, host.appsZoneReply, crc.state);
      Then(found, Then(crc, apps))
  }

  /** `forward_port_gvproxy`: expose the API server port on the host. */
  function ForwardPortGvproxyStep(host: Host, s: State): Step {
    GvproxyPostStep(ExposeEndpoint, ApiForward, host.forwardReply, s)
  }

  /**
   * `update_hosts_file`: append the API server's name to /etc/hosts, then
   * test the status of the (checked) command.
   */
  function UpdateHostsFileStep(host: Host, s: State): Step {
    var r := RunCommand(HostsArgv, host.hostsUpdate, true);
    Step(s, [Run(HostsArgv)], [],
      if r.Err? then Threw(r.error)
      else if r.value.returncode != 0 then Threw(MacadamError(HostsEntryFailed))
      else Returned)
  }

  /**
   * `copy_kubeconfig_from_vm`: find the SSH port, `scp` the guest's
   * kubeconfig into the working directory with the recorded private key,
   * and record its path before the emptiness check.
   */
  function CopyKubeconfigFromVmStep(host: Host, s: State): Step {
    var d := GetSshPort(host.pgrepAtCopy);
    if d.Err? then Step(s, [Run(PgrepArgv)], [], Threw(d.error))
    else
      var unsetReads := ReadOf(PrivKeyPath, s);
      var kc := InCwd(host, KubeconfigFile);
      var argv := ScpArgv(d.value, PathArg(s.privKeyPath), kc);
      var r := RunCommand(argv, host.scp, true);
      if r.Err? then Step(s, [Run(PgrepArgv), Run(argv)], unsetReads, Threw(r.error))
      else
        var s' := s.(kubeconfigPath := Some(kc));
        if host.kubeconfigSize == 0 then Step(s', [Run(PgrepArgv), Run(argv)], unsetReads, Threw(MacadamError(KubeconfigEmpty)))
        else Step(s', [Run(PgrepArgv), Run(argv)], unsetReads, Returned)
  }

  /** A polling loop: the command once per attempt consumed, ending as the loop ends. */
  function PollStep(p: Probe, argv: seq<string>, attempts: seq<Invocation>, s: State): Step
    requires argv != []
  {
    Step(s, Repeat(Run(argv), Consumed(p, attempts)), [], OfPoll(LoopEnd(p, argv, attempts)))
  }

  /** `wait_for_ssh`. */
  function WaitForSshStep(host: Host, s: State): Step {
    PollStep(SshProbe, SshArgv, host.sshAttempts, s)
  }

  /**
   * The `oc get node` loop of `wait_for_api_server`, which passes the
   * recorded `oc` and kubeconfig paths; the first attempt, which `while True`
   * always makes, reads both entries.
   */
  function NodeLoopStep(host: Host, s: State): Step {
    var argv := NodeArgv(PathArg(s.ocBinaryPath), PathArg(s.kubeconfigPath));
    PollStep(NodeProbe, argv, host.nodeAttempts, s).(unsetReads := ReadOf(OcBinaryPath, s) + ReadOf(KubeconfigPath, s))
  }

  /**
   * `wait_for_api_server`: poll for the guest's kubeconfig; on the first
   * attempt that finds it, copy it once; then poll `oc get node`.
   */
  function WaitForApiServerStep(host: Host, s: State): Step {
    var kube := PollStep(KubeconfigProbe, KubeconfigArgv, host.kubeconfigAttempts, s);
    var copy := CopyKubeconfigFromVmStep(host, s);
    Then(kube, Then(copy, NodeLoopStep(host, copy.state)))
  }

  /** The stability loop of `check_cluster_status`, with the same two entries read as the node loop. */
  function WaitForStableClusterStep(host: Host, s: State): Step {
    var argv := StabilityArgv(PathArg(s.ocBinaryPath), PathArg(s.kubeconfigPath));
    PollStep(StabilityProbe, argv, host.stabilityAttempts, s).(unsetReads := ReadOf(OcBinaryPath, s) + ReadOf(KubeconfigPath, s))
  }

  /** `check_cluster_status`: wait for SSH, then for the API server, then for a stable cluster. */
  function CheckClusterStatusStep(host: Host, s: State): Step {
    var ssh := WaitForSshStep(host, s);
    var api := WaitForApiServerStep(host, s);
    Then(ssh, Then(api, WaitForStableClusterStep(host, api.state)))
  }

  /** What one stage of `main` does after the configuration is loaded; the one stage that polls is told apart first. */
  function StageStep(stage: LaterStage, config: Config, host: Host, s: State): Step {
    if stage == CheckClusterStatus then CheckClusterStatusStep(host, s)
    else match stage
    case EnsureDependencies => SetupStep(host.dependencies, s)
    case GenerateSshKeypair => GenerateSshKeypairStep(host, s)
    case LoadResources => LoadResourcesStep(config, host, s)
    case GenerateCloudInit => GenerateCloudInitStep(host, s)
    case ExtractDiskImage => ExtractDiskImageStep(config, host, s)
    case ExtractOcBinary => ExtractOcBinaryStep(config, host, s)
    case EnsureMacadam => SetupStep(host.macadamSetup, s)
    case EnsureGvproxy => SetupStep(host.gvproxySetup, s)
    case StartVm => StartMacadamVmStep(host, s)
    case AddApiServerDns => AddApiServerDnsStep(host, s)
    case ForwardPort => ForwardPortGvproxyStep(host, s)
    case UpdateHostsFile => UpdateHostsFileStep(host, s)
  }

  /** A run of stages: what it did, and the stages it entered, in order. */
  datatype Trace = Trace(step: Step, entered: seq<Stage>)

  /** Every stage, run with the configuration and the machine's answers. */
  function StageRunner(config: Config, host: Host): (LaterStage, State) -> Step {
    (stage: LaterStage, s: State) => StageStep(stage, config, host, s)
  }

  /**
   * `run` performs every stage exactly as `StageStep` describes it, from
   * any record. The `Session` class of the `Pipeline` module is proved
   * against every such runner, and `StageRunner` is one.
   */
  ghost predicate PerformsStages(run: (LaterStage, State) -> Step, config: Config, host: Host) {
    && (forall s :: run(EnsureDependencies, s) == SetupStep(host.dependencies, s))
    && (forall s :: run(GenerateSshKeypair, s) == GenerateSshKeypairStep(host, s))
    && (forall s :: run(LoadResources, s) == LoadResourcesStep(config, host, s))
    && (forall s :: run(GenerateCloudInit, s) == GenerateCloudInitStep(host, s))
    && (forall s :: run(ExtractDiskImage, s) == ExtractDiskImageStep(config, host, s))
    && (forall s :: run(ExtractOcBinary, s) == ExtractOcBinaryStep(config, host, s))
    && (forall s :: run(EnsureMacadam, s) == SetupStep(host.macadamSetup, s))
    && (forall s :: run(EnsureGvproxy, s) == SetupStep(host.gvproxySetup, s))
    && (forall s :: run(StartVm, s) == StartMacadamVmStep(host, s))
    && (forall s :: run(AddApiServerDns, s) == AddApiServerDnsStep(host, s))
    && (forall s :: run(ForwardPort, s) == ForwardPortGvproxyStep(host, s))
    && (forall s :: run(UpdateHostsFile, s) == UpdateHostsFileStep(host, s))
    && (forall s :: run(CheckClusterStatus, s) == CheckClusterStatusStep(host, s))
  }

  /** The preparation stages as `StageRunner` runs them. */
  lemma RunnerPreparesKeys(config: Config, host: Host)
    ensures forall s :: StageRunner(config, host)(EnsureDependencies, s) == SetupStep(host.dependencies, s)
    ensures forall s :: StageRunner(config, host)(GenerateSshKeypair, s) == GenerateSshKeypairStep(host, s)
    ensures forall s :: StageRunner(config, host)(LoadResources, s) == LoadResourcesStep(config, host, s)
    ensures forall s :: StageRunner(config, host)(GenerateCloudInit, s) == GenerateCloudInitStep(host, s)
  {
  }

  /** The extraction and setup stages as `StageRunner` runs them. */
  lemma RunnerExtracts(config: Config, host: Host)
    ensures forall s :: StageRunner(config, host)(ExtractDiskImage, s) == ExtractDiskImageStep(config, host, s)
    ensures forall s :: StageRunner(config, host)(ExtractOcBinary, s) == ExtractOcBinaryStep(config, host, s)
    ensures forall s :: StageRunner(config, host)(EnsureMacadam, s) == SetupStep(host.macadamSetup, s)
    ensures forall s :: StageRunner(config, host)(EnsureGvproxy, s) == SetupStep(host.gvproxySetup, s)
  {
  }

  /** The VM and network stages as `StageRunner` runs them. */
  lemma RunnerStartsVm(config: Config, host: Host)
    ensures forall s :: StageRunner(config, host)(StartVm, s) == StartMacadamVmStep(host, s)
    ensures forall s :: StageRunner(config, host)(AddApiServerDns, s) == AddApiServerDnsStep(host, s)
    ensures forall s :: StageRunner(config, host)(ForwardPort, s) == ForwardPortGvproxyStep(host, s)
    ensures forall s :: StageRunner(config, host)(UpdateHostsFile, s) == UpdateHostsFileStep(host, s)
  {
  }

  /** The cluster check as `StageRunner` runs it. */
  lemma RunnerChecksCluster(config: Config, host: Host)
    ensures forall s :: StageRunner(config, host)(CheckClusterStatus, s) == CheckClusterStatusStep(host, s)
  {
  }

  /** `StageRunner` performs the stages, so whatever holds of every such runner holds of `main`. */
  lemma RunnerPerformsStages(config: Config, host: Host)
    ensures PerformsStages(StageRunner(config, host), config, host)
  {
    RunnerPreparesKeys(config, host);
    RunnerExtracts(config, host);
    RunnerStartsVm(config, host);
    RunnerChecksCluster(config, host);
  }

  /**
   * Run `stages` in order from `s`, each by `run`, stopping after the first
   * one that does not return.
   */
  function RunStages(stages: seq<LaterStage>, run: (LaterStage, State) -> Step, s: State): Trace
    decreases |stages|
  {
    if stages == [] then Trace(Skip(s), [])
    else
      var first := run(stages[0], s);
      if first.end.Returned? then
        var rest := RunStages(stages[1..], run, first.state);
        Trace(Chain(first, rest.step), [stages[0]] + rest.entered)
      else Trace(first, [stages[0]])
  }

  /**
   * `main`'s `try` block: load the configuration, then run every other stage
   * in source order, stopping at the first exception.
   */
  function Main(host: Host, s: State): Trace {
    match LoadConfigFromEnv(host.env, host.home, host.existing)
    case Err(e) => Trace(Step(s, [], [], Threw(e)), [LoadConfig])
    case Ok(config) =>
      var run := RunStages(AfterConfig, StageRunner(config, host), s);
      Trace(run.step, [LoadConfig] + run.entered)
  }

  /** How a run of `main` ends: it returned a report, or a polling loop was still waiting. */
  datatype RunResult = Finished(report: Report) | Polling

  /** `main`'s return: 0 after the last stage, its `except` clauses' report on an exception. */
  function ResultOf(e: End): RunResult {
    match e
    case Returned => Finished(Success)
    case Threw(error) => Finished(ReportFor(error))
    case Waiting => Polling
  }

  function MainResult(host: Host, s: State): RunResult {
    ResultOf(Main(host, s).step.end)
  }

  /** Three steps in sequence: each runs only if the ones before it returned. */
  lemma ThenThree(a: Step, b: Step, c: Step)
    ensures var t := Then(a, Then(b, c));
      && (!a.end.Returned? ==> t == a)
      && (a.end.Returned? && !b.end.Returned? ==>
            t.log == a.log + b.log && t.state == b.state && t.unsetReads == a.unsetReads + b.unsetReads && t.end == b.end)
      && (a.end.Returned? && b.end.Returned? ==>
            t.log == a.log + b.log + c.log && t.state == c.state
            && t.unsetReads == a.unsetReads + b.unsetReads + c.unsetReads && t.end == c.end)
  {
  }

  /** What three steps in sequence do is done by one of them. */
  lemma ThenLogs(a: Step, b: Step, c: Step)
    ensures forall x | x in Then(a, Then(b, c)).log :: x in a.log || x in b.log || x in c.log
  {
    ThenThree(a, b, c);
  }

  // ---------------------------------------------------------------------
  // The stages one by one.

  /**
   * `ssh-keygen` is launched once; the key paths are recorded exactly when
   * it succeeds, and its failure is reported as "Failed to generate SSH
   * keypair." unless it was an interrupt or an error `run_command` does not
   * wrap.
   */
  lemma GenerateSshKeypairStepSpec(host: Host, s: State)
    ensures var st := GenerateSshKeypairStep(host, s);
      var key := InCwd(host, KeyFileName);
      && st.log == [Run(KeygenArgv(key))] && st.unsetReads == []
      && (st.end.Returned? <==> Succeeds(host.keygen))
      && (st.end.Returned? ==> st.state == s.(privKeyPath := Some(key), pubKeyPath := Some(key + ".pub")))
      && (!st.end.Returned? ==> st.state == s)
      && ((host.keygen.NotFound? || host.keygen.Exited?) && !Succeeds(host.keygen) ==> st.end == Threw(MacadamError(KeygenFailed)))
      && (host.keygen.Interrupted? ==> st.end == Threw(KeyboardInterrupt))
      && (host.keygen.LaunchFailed? ==> st.end == Threw(OtherError(host.keygen.message)))
  {
  }

  /**
   * The pull secret is checked first; the public key path is read only
   * after that check; both texts are kept stripped, and only on success.
   */
  lemma LoadResourcesStepSpec(config: Config, host: Host, s: State)
    ensures var st := LoadResourcesStep(config, host, s);
      && st.log == []
      && st.unsetReads == (if config.pullSecretPath in host.existing then ReadOf(PubKeyPath, s) else [])
      && (config.pullSecretPath !in host.existing ==> st.end == Threw(MacadamError(PullSecretNotFound(config.pullSecretPath))))
      && (config.pullSecretPath in host.existing && (s.pubKeyPath.None? || host.pubKeyText.None?) ==>
            st.end == Threw(MacadamError(PubKeyNotFound(PathArg(s.pubKeyPath)))))
      && (st.end.Returned? <==> config.pullSecretPath in host.existing && s.pubKeyPath.Some? && host.pubKeyText.Some?)
      && (st.end.Returned? ==> st.state == s.(pullSecret := Strip(host.pullSecretText), pubKey := Strip(host.pubKeyText.value)))
      && (!st.end.Returned? ==> st.state == s)
  {
  }

  /**
   * The disk image is extracted only from an existing bundle; its path is
   * recorded whenever `tar` succeeds, even when the image is then found
   * empty.
   */
  lemma ExtractDiskImageStepSpec(config: Config, host: Host, s: State)
    ensures var st := ExtractDiskImageStep(config, host, s);
      var argv := ExtractArgv(config.crcBundlePath, DiskImageName);
      var r := RunCommand(argv, host.diskTar, true);
      && st.unsetReads == []
      && (config.crcBundlePath !in host.existing ==>
            st == Step(s, [], [], Threw(MacadamError(BundleNotFound(config.crcBundlePath)))))
      && (config.crcBundlePath in host.existing ==> st.log == [Run(argv)])
      && (config.crcBundlePath in host.existing && r.Err? ==> st.end == Threw(r.error) && st.state == s)
      && (config.crcBundlePath in host.existing && r.Ok? ==> st.state == s.(diskImagePath := Some(InCwd(host, DiskImageName))))
      && (st.end.Returned? <==> config.crcBundlePath in host.existing && r.Ok? && host.diskImageSize > 0)
      && (config.crcBundlePath in host.existing && r.Ok? && host.diskImageSize == 0 ==> st.end == Threw(MacadamError(DiskImageEmpty)))
  {
  }

  /**
   * The `oc` binary is extracted likewise, its path recorded before the
   * emptiness check, and `chmod +x` runs only on a non-empty binary.
   */
  lemma ExtractOcBinaryStepSpec(config: Config, host: Host, s: State)
    ensures var st := ExtractOcBinaryStep(config, host, s);
      var argv := ExtractArgv(config.crcBundlePath, OcBinaryName);
      var r := RunCommand(argv, host.ocTar, true);
      var oc := InCwd(host, OcBinaryName);
      && st.unsetReads == []
      && (config.crcBundlePath !in host.existing ==>
            st == Step(s, [], [], Threw(MacadamError(BundleNotFound(config.crcBundlePath)))))
      && (config.crcBundlePath in host.existing && r.Err? ==> st == Step(s, [Run(argv)], [], Threw(r.error)))
      && (config.crcBundlePath in host.existing && r.Ok? ==> st.state == s.(ocBinaryPath := Some(oc)))
      && (config.crcBundlePath in host.existing && r.Ok? && host.ocBinarySize == 0 ==>
            st.log == [Run(argv)] && st.end == Threw(MacadamError(OcBinaryEmpty)))
      && (config.crcBundlePath in host.existing && r.Ok? && host.ocBinarySize > 0 ==>
            st.log == [Run(argv), Run(ChmodArgv(oc))])
      && (st.end.Returned? <==>
            config.crcBundlePath in host.existing && r.Ok? && host.ocBinarySize > 0 && Succeeds(host.chmod))
  {
  }

  /**
   * A failing `macadam init` is fatal (as `VMError` when `run_command`
   * wrapped it) and `macadam start` is then never issued; `start` runs
   * unchecked, so any exit status lets the pipeline go on. The state is
   * never changed.
   */
  lemma StartMacadamVmStepSpec(host: Host, s: State)
    ensures var st := StartMacadamVmStep(host, s);
      var init := InitArgv(PathArg(s.diskImagePath), PathArg(s.privKeyPath), PathArg(s.userDataPath));
      && st.state == s
      && st.unsetReads == ReadOf(DiskImagePath, s) + ReadOf(PrivKeyPath, s) + ReadOf(UserDataPath, s)
      && (!Succeeds(host.vmInit) ==> st.log == [Run(init)] && Run(StartArgv) !in st.log)
      && ((host.vmInit.NotFound? || host.vmInit.Exited?) && !Succeeds(host.vmInit) ==> st.end == Threw(VMError(VmInitFailed)))
      && (Succeeds(host.vmInit) ==> st.log == [Run(init), Run(StartArgv)])
      && (st.end.Returned? <==> Succeeds(host.vmInit) && host.vmStart.Exited?)
  {
    var init := InitArgv(PathArg(s.diskImagePath), PathArg(s.privKeyPath), PathArg(s.userDataPath));
    if !Succeeds(host.vmInit) {
      assert init[1] != StartArgv[1];
    }
  }

  /**
   * With the socket path unset or empty nothing is posted and the step
   * raises "gvproxy socket path not set."; otherwise exactly one request is
   * posted and the step ends as the reply dictates.
   */
  lemma GvproxyPostStepSpec(endpoint: string, request: Request, reply: HttpReply, s: State)
    ensures var st := GvproxyPostStep(endpoint, request, reply, s);
      && st.state == s
      && st.unsetReads == ReadOf(GvproxySocketPath, s)
      && (!IsSet(s.gvproxySocketPath) ==> st.log == [] && st.end == Threw(MacadamError(SocketPathUnset)))
      && (IsSet(s.gvproxySocketPath) ==> st.log == [Post(endpoint, request)])
      && (st.end.Returned? <==> IsSet(s.gvproxySocketPath) && reply == Status(200))
  {
  }

  /**
   * The socket path is recorded from the listing before anything is
   * posted; "crc.testing." is posted first and "apps-crc.testing." only
   * after it succeeded; no entry is read while unset.
   */
  lemma AddApiServerDnsStepSpec(host: Host, s: State)
    ensures var st := AddApiServerDnsStep(host, s);
      var d := GetGvproxySocketPath(host.pgrepAtDns);
      && st.unsetReads == []
      && (d.Err? ==> st == Step(s, [Run(PgrepArgv)], [], Threw(d.error)))
      && (d.Ok? ==> st.state == s.(gvproxySocketPath := Some(d.value)))
      && (d.Ok? && host.crcZoneReply != Status(200) ==>
            st.log == [Run(PgrepArgv), Post(DnsEndpoint, CrcZone)]
            && st.end == OfOutcome(PostOutcome(DnsEndpoint, host.crcZoneReply)))
      && (d.Ok? && host.crcZoneReply == Status(200) ==>
            st.log == [Run(PgrepArgv), Post(DnsEndpoint, CrcZone), Post(DnsEndpoint, AppsZone)]
            && st.end == OfOutcome(PostOutcome(DnsEndpoint, host.appsZoneReply)))
      && (st.end.Returned? <==> d.Ok? && host.crcZoneReply == Status(200) && host.appsZoneReply == Status(200))
  {
  }

  /**
   * The hosts-file update is launched once, and it fails exactly when
   * `run_command` raises: a non-zero status already raises there, so the
   * function's own status test never fires.
   */
  lemma UpdateHostsFileStepSpec(host: Host, s: State)
    ensures var st := UpdateHostsFileStep(host, s);
      var r := RunCommand(HostsArgv, host.hostsUpdate, true);
      && st.state == s && st.log == [Run(HostsArgv)] && st.unsetReads == []
      && st.end == (if r.Ok? then Returned else Threw(r.error))
      && st.end != Threw(MacadamError(HostsEntryFailed))
  {
    var r := RunCommand(HostsArgv, host.hostsUpdate, true);
    if r.Err? && host.hostsUpdate.Exited? {
      assert r.error.message[8] == 'f';
      assert HostsEntryFailed[8] != 'f';
    }
  }

  /**
   * The private key path is read only once the SSH port is known; `scp`
   * runs at most once; the kubeconfig path is recorded exactly when `scp`
   * succeeded, before its size is checked.
   */
  lemma CopyKubeconfigFromVmStepSpec(host: Host, s: State)
    ensures var st := CopyKubeconfigFromVmStep(host, s);
      var d := GetSshPort(host.pgrepAtCopy);
      var kc := InCwd(host, KubeconfigFile);
      && (d.Err? ==> st == Step(s, [Run(PgrepArgv)], [], Threw(d.error)))
      && (d.Ok? ==> st.unsetReads == ReadOf(PrivKeyPath, s))
      && (d.Ok? ==> st.log == [Run(PgrepArgv), Run(ScpArgv(d.value, PathArg(s.privKeyPath), kc))])
      && (d.Ok? && !Succeeds(host.scp) ==> st.state == s && st.end == Threw(RunCommand(ScpArgv(d.value, PathArg(s.privKeyPath), kc), host.scp, true).error))
      && (d.Ok? && Succeeds(host.scp) ==> st.state == s.(kubeconfigPath := Some(kc)))
      && (st.end.Returned? <==> d.Ok? && Succeeds(host.scp) && host.kubeconfigSize > 0)
  {
  }

  /**
   * A polling loop changes nothing but the log: it launches the same
   * command once per attempt consumed; it lets the stage go on exactly when
   * it met a ready attempt, which is the last one launched, with every
   * earlier attempt completed and unready.
   */
  lemma {:induction false} PollStepSpec(p: Probe, argv: seq<string>, attempts: seq<Invocation>, s: State)
    requires argv != []
    ensures var st := PollStep(p, argv, attempts, s);
      var n := Consumed(p, attempts);
      && st.state == s && st.unsetReads == []
      && |st.log| == n && (forall j | 0 <= j < n :: st.log[j] == Run(argv))
      && (st.end.Returned? <==> Converges(p, attempts))
      && (st.end.Returned? ==> 0 < n && attempts[n - 1].Exited? && Ready(p, attempts[n - 1].result))
      && (forall j | 0 <= j < n - 1 :: attempts[j].Exited? && !Ready(p, attempts[j].result))
      && (st.end.Waiting? <==> forall j | 0 <= j < |attempts| :: attempts[j].Exited? && !Ready(p, attempts[j].result))
  {
    LoopEndSpec(p, argv, attempts);
    var f := FirstStop(p, attempts);
    if f.Some? {
      assert Stops(p, attempts[f.value]);
    }
  }

  /**
   * `wait_for_api_server`: while the kubeconfig loop has not met a ready
   * attempt nothing else runs; the copy runs exactly once, right after the
   * ready attempt; `oc get node` is polled only after a copy that returned,
   * and a copy that raised ends the wait with its exception.
   */
  lemma WaitForApiServerStepSpec(host: Host, s: State)
    ensures var st := WaitForApiServerStep(host, s);
      var kube := PollStep(KubeconfigProbe, KubeconfigArgv, host.kubeconfigAttempts, s);
      var copy := CopyKubeconfigFromVmStep(host, s);
      var node := NodeLoopStep(host, copy.state);
      && (!kube.end.Returned? ==> st == kube)
      && (kube.end.Returned? && !copy.end.Returned? ==>
            && st.log == kube.log + copy.log
            && st.state == copy.state && st.unsetReads == copy.unsetReads && st.end == copy.end)
      && (kube.end.Returned? && copy.end.Returned? ==>
            && st.log == kube.log + copy.log + node.log
            && st.state == copy.state && st.unsetReads == copy.unsetReads + node.unsetReads && st.end == node.end)
      && (st.end.Returned? <==> Converges(KubeconfigProbe, host.kubeconfigAttempts) && copy.end.Returned? && Converges(NodeProbe, host.nodeAttempts))
      && (st.end.Returned? ==> st.state.kubeconfigPath == Some(InCwd(host, KubeconfigFile)))
  {
    var kube := PollStep(KubeconfigProbe, KubeconfigArgv, host.kubeconfigAttempts, s);
    var copy := CopyKubeconfigFromVmStep(host, s);
    var node := NodeLoopStep(host, copy.state);
    assert WaitForApiServerStep(host, s) == Then(kube, Then(copy, node));
    ThenThree(kube, copy, node);
    PollStepSpec(KubeconfigProbe, KubeconfigArgv, host.kubeconfigAttempts, s);
    CopyKubeconfigFromVmStepSpec(host, s);
    NodeLoopStepSpec(host, copy.state);
  }

  /** The node loop reads the `oc` and kubeconfig entries once, and goes on exactly when it converges. */
  lemma NodeLoopStepSpec(host: Host, s: State)
    ensures var st := NodeLoopStep(host, s);
      && st.state == s && st.unsetReads == ReadOf(OcBinaryPath, s) + ReadOf(KubeconfigPath, s)
      && (st.end.Returned? <==> Converges(NodeProbe, host.nodeAttempts))
      && st.log == PollStep(NodeProbe, NodeArgv(PathArg(s.ocBinaryPath), PathArg(s.kubeconfigPath)), host.nodeAttempts, s).log
  {
    PollStepSpec(NodeProbe, NodeArgv(PathArg(s.ocBinaryPath), PathArg(s.kubeconfigPath)), host.nodeAttempts, s);
  }

  /** A launch of `<oc> get node ...`. */
  predicate QueriesNodes(a: Action) {
    a.Run? && |a.argv| >= 3 && a.argv[1] == "get" && a.argv[2] == "node"
  }

  /**
   * With the copy failing, the wait for the API server never launches
   * `oc get node`: after the kubeconfig probes only the copy's own commands
   * run, and the wait raises the copy's exception.
   */
  lemma CopyFailureSkipsNodeQuery(host: Host, s: State)
    requires !CopyKubeconfigFromVmStep(host, s).end.Returned?
    ensures var st := WaitForApiServerStep(host, s);
      var kube := PollStep(KubeconfigProbe, KubeconfigArgv, host.kubeconfigAttempts, s);
      && st.log == kube.log + (if kube.end.Returned? then CopyKubeconfigFromVmStep(host, s).log else [])
      && (forall a | a in st.log :: !QueriesNodes(a))
      && (kube.end.Returned? ==> st.end == CopyKubeconfigFromVmStep(host, s).end)
  {
    var st := WaitForApiServerStep(host, s);
    var kube := PollStep(KubeconfigProbe, KubeconfigArgv, host.kubeconfigAttempts, s);
    var copy := CopyKubeconfigFromVmStep(host, s);
    WaitForApiServerStepSpec(host, s);
    PollLog(KubeconfigProbe, KubeconfigArgv, host.kubeconfigAttempts, s);
    CopyLog(host, s);
    forall a | a in st.log ensures !QueriesNodes(a) {
      assert a in kube.log || a in copy.log;
    }
  }

  /** A polling loop launches nothing but its own command. */
  lemma PollLog(p: Probe, argv: seq<string>, attempts: seq<Invocation>, s: State)
    requires argv != []
    ensures forall a | a in PollStep(p, argv, attempts, s).log :: a == Run(argv)
  {
    var log := PollStep(p, argv, attempts, s).log;
    forall a | a in log ensures a == Run(argv) {
      var j :| 0 <= j < |log| && log[j] == a;
    }
  }

  /** The copy launches only `pgrep` and `scp`. */
  lemma CopyLog(host: Host, s: State)
    ensures forall a | a in CopyKubeconfigFromVmStep(host, s).log ::
      a.Run? && (a.argv == PgrepArgv || a.argv[0] == "scp") && !QueriesNodes(a) && a != Run(HostsArgv)
  {
    CopyKubeconfigFromVmStepSpec(host, s);
  }

  /**
   * `check_cluster_status`: the API-server wait starts only after SSH
   * answered, and the stability loop only after the API-server wait
   * returned; whichever wait does not converge ends the stage, with nothing
   * after it launched.
   */
  lemma CheckClusterStatusStepSpec(host: Host, s: State)
    ensures var st := CheckClusterStatusStep(host, s);
      var ssh := WaitForSshStep(host, s);
      var api := WaitForApiServerStep(host, s);
      var stable := WaitForStableClusterStep(host, api.state);
      && (!ssh.end.Returned? ==> st == ssh)
      && (ssh.end.Returned? && !api.end.Returned? ==>
            st.log == ssh.log + api.log && st.state == api.state && st.unsetReads == api.unsetReads && st.end == api.end)
      && (ssh.end.Returned? && api.end.Returned? ==>
            st.log == ssh.log + api.log + stable.log && st.state == api.state
            && st.unsetReads == api.unsetReads + stable.unsetReads && st.end == stable.end)
      && (st.end.Returned? <==>
            Converges(SshProbe, host.sshAttempts) && api.end.Returned? && Converges(StabilityProbe, host.stabilityAttempts))
  {
    var ssh := WaitForSshStep(host, s);
    var api := WaitForApiServerStep(host, s);
    var stable := WaitForStableClusterStep(host, api.state);
    assert CheckClusterStatusStep(host, s) == Then(ssh, Then(api, stable));
    ThenThree(ssh, api, stable);
    PollStepSpec(SshProbe, SshArgv, host.sshAttempts, s);
    PollStepSpec(StabilityProbe, StabilityArgv(PathArg(api.state.ocBinaryPath), PathArg(api.state.kubeconfigPath)), host.stabilityAttempts, api.state);
  }
}
