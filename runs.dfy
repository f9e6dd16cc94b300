/**
 * Properties of `main` as a whole: where a run stops, which stage its
 * exception comes from, that no path entry is read before the stage that
 * records it has returned, and which answers of the machine make it
 * succeed. The facts about running stages in sequence are proved once for
 * any way of running a stage, then applied to the stages of the script.
 */
module Runs {
  import opened Optional
  import opened Commands
  import opened MacadamConfig
  import opened BundlePaths
  import opened GvproxyDiscovery
  import opened Readiness
  import opened Stages

  // ---------------------------------------------------------------------
  // Path entries: which a stage reads and which it records.

  /** The entries a stage reads: it must find them set, or it passes "None" on. */
  function Needs(stage: LaterStage): set<Field> {
    match stage
    case LoadResources => {PubKeyPath}
    case StartVm => {DiskImagePath, PrivKeyPath, UserDataPath}
    case ForwardPort => {GvproxySocketPath}
    case CheckClusterStatus => {PrivKeyPath, OcBinaryPath}
    case _ => {}
  }

  /** The entries a stage records when it returns. */
  function Sets(stage: LaterStage): set<Field> {
    match stage
    case GenerateSshKeypair => {PrivKeyPath, PubKeyPath}
    case GenerateCloudInit => {UserDataPath}
    case ExtractDiskImage => {DiskImagePath}
    case ExtractOcBinary => {OcBinaryPath}
    case AddApiServerDns => {GvproxySocketPath}
    case CheckClusterStatus => {KubeconfigPath}
    case _ => {}
  }

  function SetsOf(stages: seq<LaterStage>): set<Field>
    decreases |stages|
  {
    if stages == [] then {} else Sets(stages[0]) + SetsOf(stages[1..])
  }

  /** Every stage of `stages` reads only entries recorded before it, starting from `have`. */
  predicate NeedsMet(stages: seq<LaterStage>, have: set<Field>)
    decreases |stages|
  {
    stages == [] || (Needs(stages[0]) <= have && NeedsMet(stages[1..], have + Sets(stages[0])))
  }

  /** Every entry of `fs` is set in `s`. */
  predicate HasFields(s: State, fs: set<Field>) {
    && (PrivKeyPath in fs ==> IsSet(s.privKeyPath))
    && (PubKeyPath in fs ==> IsSet(s.pubKeyPath))
    && (UserDataPath in fs ==> IsSet(s.userDataPath))
    && (DiskImagePath in fs ==> IsSet(s.diskImagePath))
    && (GvproxySocketPath in fs ==> IsSet(s.gvproxySocketPath))
    && (OcBinaryPath in fs ==> IsSet(s.ocBinaryPath))
    && (KubeconfigPath in fs ==> IsSet(s.kubeconfigPath))
  }

  /** Every entry set in `s` is still set in `t`. */
  predicate Keeps(s: State, t: State) {
    && (IsSet(s.privKeyPath) ==> IsSet(t.privKeyPath))
    && (IsSet(s.pubKeyPath) ==> IsSet(t.pubKeyPath))
    && (IsSet(s.userDataPath) ==> IsSet(t.userDataPath))
    && (IsSet(s.diskImagePath) ==> IsSet(t.diskImagePath))
    && (IsSet(s.gvproxySocketPath) ==> IsSet(t.gvproxySocketPath))
    && (IsSet(s.ocBinaryPath) ==> IsSet(t.ocBinaryPath))
    && (IsSet(s.kubeconfigPath) ==> IsSet(t.kubeconfigPath))
  }

  /**
   * `st`, run as `stage` from `s`, clears no entry, records its own entries
   * if it returns, and reads no entry while unset when it finds its own set.
   */
  predicate FieldsRespected(stage: LaterStage, s: State, st: Step) {
    && Keeps(s, st.state)
    && (st.end.Returned? ==> HasFields(st.state, Sets(stage)))
    && (HasFields(s, Needs(stage)) ==> st.unsetReads == [])
  }

  /**
   * What `stage` may do with `a`: only the DNS stage posts zones, only the
   * port stage posts the forward, only the hosts-file stage runs its command.
   */
  predicate MayDo(stage: Stage, a: Action) {
    && (a.Post? ==>
          || (stage == AddApiServerDns && a.endpoint == DnsEndpoint && (a.request == CrcZone || a.request == AppsZone))
          || (stage == ForwardPort && a == Post(ExposeEndpoint, ApiForward)))
    && (a == Run(HostsArgv) ==> stage == UpdateHostsFile)
  }

  /** `st`, run as `stage`, does only what `stage` may do, and only the cluster check can still be waiting. */
  predicate EffectsRespected(stage: LaterStage, st: Step) {
    && (forall a | a in st.log :: MayDo(stage, a))
    && (st.end.Waiting? ==> stage == CheckClusterStatus)
  }

  /**
   * The answers of the machine that let `stage` return: every command it
   * checks succeeds, every file it needs exists and is non-empty, every
   * request it posts is answered 200, and every loop it polls converges.
   */
  predicate StageCooperates(stage: LaterStage, config: Config, host: Host) {
    match stage
    case EnsureDependencies => host.dependencies.Done?
    case GenerateSshKeypair => Succeeds(host.keygen)
    case LoadResources => config.pullSecretPath in host.existing && host.pubKeyText.Some?
    case GenerateCloudInit => true
    case ExtractDiskImage => config.crcBundlePath in host.existing && Succeeds(host.diskTar) && host.diskImageSize > 0
    case ExtractOcBinary =>
      config.crcBundlePath in host.existing && Succeeds(host.ocTar) && host.ocBinarySize > 0 && Succeeds(host.chmod)
    case EnsureMacadam => host.macadamSetup.Done?
    case EnsureGvproxy => host.gvproxySetup.Done?
    case StartVm => Succeeds(host.vmInit) && host.vmStart.Exited?
    case AddApiServerDns =>
      GetGvproxySocketPath(host.pgrepAtDns).Ok? && host.crcZoneReply == Status(200) && host.appsZoneReply == Status(200)
    case ForwardPort => host.forwardReply == Status(200)
    case UpdateHostsFile => Succeeds(host.hostsUpdate)
    case CheckClusterStatus =>
      && Converges(SshProbe, host.sshAttempts)
      && Converges(KubeconfigProbe, host.kubeconfigAttempts)
      && GetSshPort(host.pgrepAtCopy).Ok? && Succeeds(host.scp) && host.kubeconfigSize > 0
      && Converges(NodeProbe, host.nodeAttempts)
      && Converges(StabilityProbe, host.stabilityAttempts)
  }

  /** `st`, run as `stage` from `s`, returns only if the machine cooperates, and does whenever it does and the entries `stage` reads are set. */
  predicate ReturnsAsHostAllows(stage: LaterStage, config: Config, host: Host, s: State, st: Step) {
    && (st.end.Returned? ==> StageCooperates(stage, config, host))
    && (StageCooperates(stage, config, host) && HasFields(s, Needs(stage)) ==> st.end.Returned?)
  }

  /** Everything proved of each stage, for the runs of stages below. */
  predicate StageRespects(stage: LaterStage, config: Config, host: Host, s: State, st: Step) {
    && FieldsRespected(stage, s, st)
    && EffectsRespected(stage, st)
    && ReturnsAsHostAllows(stage, config, host, s, st)
  }

  // ---------------------------------------------------------------------
  // The stages one by one.

  /** An entry keeps its value or becomes set, for each entry: none is cleared. */
  lemma KeepsFields(s: State, t: State)
    requires t.privKeyPath == s.privKeyPath || IsSet(t.privKeyPath)
    requires t.pubKeyPath == s.pubKeyPath || IsSet(t.pubKeyPath)
    requires t.userDataPath == s.userDataPath || IsSet(t.userDataPath)
    requires t.diskImagePath == s.diskImagePath || IsSet(t.diskImagePath)
    requires t.gvproxySocketPath == s.gvproxySocketPath || IsSet(t.gvproxySocketPath)
    requires t.ocBinaryPath == s.ocBinaryPath || IsSet(t.ocBinaryPath)
    requires t.kubeconfigPath == s.kubeconfigPath || IsSet(t.kubeconfigPath)
    ensures Keeps(s, t)
  {
  }

  lemma SetupRespects(o: Outcome, config: Config, host: Host, stage: LaterStage, s: State)
    requires stage in {EnsureDependencies, EnsureMacadam, EnsureGvproxy}
    requires o == (if stage == EnsureDependencies then host.dependencies
                   else if stage == EnsureMacadam then host.macadamSetup else host.gvproxySetup)
    ensures StageRespects(stage, config, host, s, SetupStep(o, s))
  {
    KeepsFields(s, s);
  }

  lemma GenerateSshKeypairRespects(config: Config, host: Host, s: State)
    ensures StageRespects(GenerateSshKeypair, config, host, s, GenerateSshKeypairStep(host, s))
  {
    var st := GenerateSshKeypairStep(host, s);
    GenerateSshKeypairStepSpec(host, s);
    KeepsFields(s, st.state);
    assert KeygenArgv(InCwd(host, KeyFileName)) != HostsArgv by {
      assert |KeygenArgv(InCwd(host, KeyFileName))| != |HostsArgv|;
    }
  }

  lemma LoadResourcesRespects(config: Config, host: Host, s: State)
    ensures StageRespects(LoadResources, config, host, s, LoadResourcesStep(config, host, s))
  {
    var st := LoadResourcesStep(config, host, s);
    LoadResourcesStepSpec(config, host, s);
    KeepsFields(s, st.state);
  }

  lemma GenerateCloudInitRespects(config: Config, host: Host, s: State)
    ensures StageRespects(GenerateCloudInit, config, host, s, GenerateCloudInitStep(host, s))
  {
    KeepsFields(s, GenerateCloudInitStep(host, s).state);
  }

  lemma ExtractDiskImageRespects(config: Config, host: Host, s: State)
    ensures StageRespects(ExtractDiskImage, config, host, s, ExtractDiskImageStep(config, host, s))
  {
    var st := ExtractDiskImageStep(config, host, s);
    ExtractDiskImageStepSpec(config, host, s);
    KeepsFields(s, st.state);
    var argv := ExtractArgv(config.crcBundlePath, DiskImageName);
    assert argv != HostsArgv by {
      assert |argv| != |HostsArgv|;
    }
  }

  lemma ExtractOcBinaryRespects(config: Config, host: Host, s: State)
    ensures StageRespects(ExtractOcBinary, config, host, s, ExtractOcBinaryStep(config, host, s))
  {
    var st := ExtractOcBinaryStep(config, host, s);
    ExtractOcBinaryStepSpec(config, host, s);
    KeepsFields(s, st.state);
    var argv := ExtractArgv(config.crcBundlePath, OcBinaryName);
    assert argv != HostsArgv by {
      assert |argv| != |HostsArgv|;
    }
    assert ChmodArgv(InCwd(host, OcBinaryName)) != HostsArgv by {
      assert |ChmodArgv(InCwd(host, OcBinaryName))| != |HostsArgv|;
    }
  }

  lemma StartVmRespects(config: Config, host: Host, s: State)
    ensures StageRespects(StartVm, config, host, s, StartMacadamVmStep(host, s))
  {
    var st := StartMacadamVmStep(host, s);
    StartMacadamVmStepSpec(host, s);
    KeepsFields(s, st.state);
    var init := InitArgv(PathArg(s.diskImagePath), PathArg(s.privKeyPath), PathArg(s.userDataPath));
    assert init != HostsArgv by {
      assert |init| != |HostsArgv|;
    }
    assert StartArgv != HostsArgv by {
      assert |StartArgv| != |HostsArgv|;
    }
  }

  /** A step that discovers the socket and posts the two zones, as the DNS stage does, respects that stage. */
  lemma DnsShapeRespects(config: Config, host: Host, s: State, st: Step)
    requires var d := GetGvproxySocketPath(host.pgrepAtDns);
      && st.unsetReads == []
      && (d.Err? ==> st == Step(s, [Run(PgrepArgv)], [], Threw(d.error)))
      && (d.Ok? ==> st.state == s.(gvproxySocketPath := Some(d.value)))
      && (d.Ok? && host.crcZoneReply != Status(200) ==>
            st.log == [Run(PgrepArgv), Post(DnsEndpoint, CrcZone)]
            && st.end == OfOutcome(PostOutcome(DnsEndpoint, host.crcZoneReply)))
      && (d.Ok? && host.crcZoneReply == Status(200) ==>
            st.log == [Run(PgrepArgv), Post(DnsEndpoint, CrcZone), Post(DnsEndpoint, AppsZone)]
            && st.end == OfOutcome(PostOutcome(DnsEndpoint, host.appsZoneReply)))
      && (st.end.Returned? <==> d.Ok? && host.crcZoneReply == Status(200) && host.appsZoneReply == Status(200))
    ensures StageRespects(AddApiServerDns, config, host, s, st)
  {
    KeepsFields(s, st.state);
    assert PgrepArgv != HostsArgv by {
      assert |PgrepArgv| != |HostsArgv|;
    }
  }

  lemma AddApiServerDnsRespects(config: Config, host: Host, s: State)
    ensures StageRespects(AddApiServerDns, config, host, s, AddApiServerDnsStep(host, s))
  {
    AddApiServerDnsStepSpec(host, s);
    DnsShapeRespects(config, host, s, AddApiServerDnsStep(host, s));
  }

  lemma ForwardPortRespects(config: Config, host: Host, s: State)
    ensures StageRespects(ForwardPort, config, host, s, ForwardPortGvproxyStep(host, s))
  {
    GvproxyPostStepSpec(ExposeEndpoint, ApiForward, host.forwardReply, s);
    KeepsFields(s, s);
  }

  lemma UpdateHostsFileRespects(config: Config, host: Host, s: State)
    ensures StageRespects(UpdateHostsFile, config, host, s, UpdateHostsFileStep(host, s))
  {
    UpdateHostsFileStepSpec(host, s);
    KeepsFields(s, s);
  }

  /**
   * The wait for the API server records only the kubeconfig path, leaves
   * the `oc` entry alone, and reads no entry while unset once the private
   * key and `oc` entries are set.
   */
  lemma WaitForApiServerFields(host: Host, s: State)
    ensures var st := WaitForApiServerStep(host, s);
      && (st.state == s || st.state == s.(kubeconfigPath := Some(InCwd(host, KubeconfigFile))))
      && (st.end.Returned? ==> st.state.kubeconfigPath == Some(InCwd(host, KubeconfigFile)))
      && (IsSet(s.privKeyPath) && IsSet(s.ocBinaryPath) ==> st.unsetReads == [])
  {
    var kube := PollStep(KubeconfigProbe, KubeconfigArgv, host.kubeconfigAttempts, s);
    var copy := CopyKubeconfigFromVmStep(host, s);
    var node := NodeLoopStep(host, copy.state);
    WaitForApiServerStepSpec(host, s);
    CopyKubeconfigFromVmStepSpec(host, s);
    NodeLoopStepSpec(host, copy.state);
    PollStepSpec(KubeconfigProbe, KubeconfigArgv, host.kubeconfigAttempts, s);
  }

  /** The cluster check launches commands only, never the hosts-file update. */
  lemma CheckClusterStatusLog(host: Host, s: State)
    ensures forall a | a in CheckClusterStatusStep(host, s).log :: a.Run? && a != Run(HostsArgv)
  {
    var ssh := WaitForSshStep(host, s);
    var api := WaitForApiServerStep(host, s);
    var stable := WaitForStableClusterStep(host, api.state);
    assert CheckClusterStatusStep(host, s) == Then(ssh, Then(api, stable));
    ThenLogs(ssh, api, stable);
    var kube := PollStep(KubeconfigProbe, KubeconfigArgv, host.kubeconfigAttempts, s);
    var copy := CopyKubeconfigFromVmStep(host, s);
    var node := NodeLoopStep(host, copy.state);
    assert api == Then(kube, Then(copy, node));
    ThenLogs(kube, copy, node);
    var nodeArgv := NodeArgv(PathArg(copy.state.ocBinaryPath), PathArg(copy.state.kubeconfigPath));
    var stableArgv := StabilityArgv(PathArg(api.state.ocBinaryPath), PathArg(api.state.kubeconfigPath));
    PollLog(SshProbe, SshArgv, host.sshAttempts, s);
    PollLog(KubeconfigProbe, KubeconfigArgv, host.kubeconfigAttempts, s);
    PollLog(NodeProbe, nodeArgv, host.nodeAttempts, copy.state);
    PollLog(StabilityProbe, stableArgv, host.stabilityAttempts, api.state);
    CopyLog(host, s);
    assert |SshArgv| != |HostsArgv| && |KubeconfigArgv| != |HostsArgv|;
    assert |nodeArgv| != |HostsArgv| && |stableArgv| != |HostsArgv|;
  }

  /** The cluster check's record and reads, in the terms of its two entries. */
  lemma CheckClusterStatusState(host: Host, s: State)
    ensures var st := CheckClusterStatusStep(host, s);
      && (st.state == s || st.state == s.(kubeconfigPath := Some(InCwd(host, KubeconfigFile))))
      && (st.end.Returned? ==> st.state.kubeconfigPath == Some(InCwd(host, KubeconfigFile)))
      && (IsSet(s.privKeyPath) && IsSet(s.ocBinaryPath) ==> st.unsetReads == [])
  {
    var ssh := WaitForSshStep(host, s);
    var api := WaitForApiServerStep(host, s);
    var stable := WaitForStableClusterStep(host, api.state);
    CheckClusterStatusStepSpec(host, s);
    WaitForApiServerFields(host, s);
    PollStepSpec(SshProbe, SshArgv, host.sshAttempts, s);
    if ssh.end.Returned? && api.end.Returned? && IsSet(s.privKeyPath) && IsSet(s.ocBinaryPath) {
      assert api.state.ocBinaryPath == s.ocBinaryPath;
      assert stable.unsetReads == ReadOf(OcBinaryPath, api.state) + ReadOf(KubeconfigPath, api.state);
    }
  }

  /** A step that records at most the kubeconfig entry, as the cluster check does, respects the cluster check's entries. */
  lemma KubeconfigOnlyRespects(s: State, st: Step, kc: string)
    requires kc != ""
    requires st.state == s || st.state == s.(kubeconfigPath := Some(kc))
    requires st.end.Returned? ==> st.state.kubeconfigPath == Some(kc)
    requires IsSet(s.privKeyPath) && IsSet(s.ocBinaryPath) ==> st.unsetReads == []
    ensures FieldsRespected(CheckClusterStatus, s, st)
  {
    KeepsFields(s, st.state);
  }

  lemma CheckClusterStatusKeepsFields(host: Host, s: State)
    ensures FieldsRespected(CheckClusterStatus, s, CheckClusterStatusStep(host, s))
  {
    CheckClusterStatusState(host, s);
    KubeconfigOnlyRespects(s, CheckClusterStatusStep(host, s), InCwd(host, KubeconfigFile));
  }

  lemma CheckClusterStatusReturns(config: Config, host: Host, s: State)
    ensures ReturnsAsHostAllows(CheckClusterStatus, config, host, s, CheckClusterStatusStep(host, s))
  {
    CheckClusterStatusStepSpec(host, s);
    WaitForApiServerFields(host, s);
    WaitForApiServerStepSpec(host, s);
    CopyKubeconfigFromVmStepSpec(host, s);
  }

  lemma CheckClusterStatusRespects(config: Config, host: Host, s: State)
    ensures StageRespects(CheckClusterStatus, config, host, s, CheckClusterStatusStep(host, s))
  {
    CheckClusterStatusKeepsFields(host, s);
    CheckClusterStatusReturns(config, host, s);
    CheckClusterStatusLog(host, s);
    CheckClusterStatusStepSpec(host, s);
  }

  /** Every stage respects its entries and effects, and returns exactly as the machine allows. */
  lemma StageFacts(stage: LaterStage, config: Config, host: Host, s: State)
    ensures StageRespects(stage, config, host, s, StageStep(stage, config, host, s))
  {
    match stage
    case EnsureDependencies => SetupRespects(host.dependencies, config, host, stage, s);
    case GenerateSshKeypair => GenerateSshKeypairRespects(config, host, s);
    case LoadResources => LoadResourcesRespects(config, host, s);
    case GenerateCloudInit => GenerateCloudInitRespects(config, host, s);
    case ExtractDiskImage => ExtractDiskImageRespects(config, host, s);
    case ExtractOcBinary => ExtractOcBinaryRespects(config, host, s);
    case EnsureMacadam => SetupRespects(host.macadamSetup, config, host, stage, s);
    case EnsureGvproxy => SetupRespects(host.gvproxySetup, config, host, stage, s);
    case StartVm => StartVmRespects(config, host, s);
    case AddApiServerDns => AddApiServerDnsRespects(config, host, s);
    case ForwardPort => ForwardPortRespects(config, host, s);
    case UpdateHostsFile => UpdateHostsFileRespects(config, host, s);
    case CheckClusterStatus => CheckClusterStatusRespects(config, host, s);
  }

  /** The machine's answers let `stage` return, as a function of the stage. */
  function Cooperates(config: Config, host: Host): LaterStage -> bool {
    (stage: LaterStage) => StageCooperates(stage, config, host)
  }

  /** The script's stages, run with any configuration and any machine, respect their entries and effects and return as the machine allows. */
  lemma RunnerRespects(config: Config, host: Host)
    ensures var run := StageRunner(config, host);
      && (forall stage, s :: FieldsRespected(stage, s, run(stage, s)))
      && (forall stage, s :: EffectsRespected(stage, run(stage, s)))
      && ReturnsOnlyIf(run, Cooperates(config, host))
      && ReturnsIf(run, Cooperates(config, host))
  {
    var run := StageRunner(config, host);
    forall stage, s ensures StageRespects(stage, config, host, s, run(stage, s)) {
      StageFacts(stage, config, host, s);
    }
  }

  // ---------------------------------------------------------------------
  // Running stages in sequence, for any way of running a stage.

  /** The record stage `j` of `stages` starts from, once the stages before it returned. */
  function StateAt(stages: seq<LaterStage>, run: (LaterStage, State) -> Step, s: State, j: nat): State
    requires j <= |stages|
    decreases j
  {
    if j == 0 then s else StateAt(stages[1..], run, run(stages[0], s).state, j - 1)
  }

  /** The step stage `k` of `stages` takes, once the stages before it returned. */
  function StageRun(stages: seq<LaterStage>, run: (LaterStage, State) -> Step, s: State, k: nat): Step
    requires k < |stages|
    decreases k
  {
    if k == 0 then run(stages[0], s) else StageRun(stages[1..], run, run(stages[0], s).state, k - 1)
  }

  /** Stage `k` runs from the record the stages before it left. */
  lemma {:induction false} StageRunIs(stages: seq<LaterStage>, run: (LaterStage, State) -> Step, s: State, k: nat)
    requires k < |stages|
    ensures StageRun(stages, run, s, k) == run(stages[k], StateAt(stages, run, s, k))
    decreases k
  {
    if k > 0 {
      StageRunIs(stages[1..], run, run(stages[0], s).state, k - 1);
    }
  }

  /**
   * One more stage: a run of `stages` from `s0` that has passed its first
   * `k` stages, doing `done` and leaving `s`, either goes on past stage `k`
   * or ends there.
   */
  lemma RunStagesAdvance(stages: seq<LaterStage>, run: (LaterStage, State) -> Step, s0: State, done: Step, k: nat, s: State)
    requires k < |stages|
    requires var rest := RunStages(stages[k..], run, s);
      RunStages(stages, run, s0) == Trace(Chain(done, rest.step), stages[..k] + rest.entered)
    ensures var first := run(stages[k], s);
      var rest := RunStages(stages[k + 1..], run, first.state);
      && (first.end.Returned? ==>
            RunStages(stages, run, s0) == Trace(Chain(Chain(done, first), rest.step), stages[..k + 1] + rest.entered))
      && (!first.end.Returned? ==> RunStages(stages, run, s0) == Trace(Chain(done, first), stages[..k + 1]))
  {
    var first := run(stages[k], s);
    var rest := RunStages(stages[k + 1..], run, first.state);
    assert stages[k..][0] == stages[k];
    assert stages[k..][1..] == stages[k + 1..];
    assert stages[..k + 1] == stages[..k] + [stages[k]];
    if first.end.Returned? {
      assert done.log + (first.log + rest.step.log) == done.log + first.log + rest.step.log;
      assert done.unsetReads + (first.unsetReads + rest.step.unsetReads) == done.unsetReads + first.unsetReads + rest.step.unsetReads;
    }
  }

  /** A stage returns, when run by `run`, only if `coop` holds of it. */
  ghost predicate ReturnsOnlyIf(run: (LaterStage, State) -> Step, coop: LaterStage -> bool) {
    forall stage, r :: run(stage, r).end.Returned? ==> coop(stage)
  }

  /** A stage of which `coop` holds returns, when run by `run`, from every record holding the entries it reads. */
  ghost predicate ReturnsIf(run: (LaterStage, State) -> Step, coop: LaterStage -> bool) {
    forall stage, r | coop(stage) && HasFields(r, Needs(stage)) :: run(stage, r).end.Returned?
  }

  /**
   * A run enters a prefix of its stages, at least the first; every stage
   * but the last entered returned; the run ends as the last entered stage
   * ends, in the record it leaves; it returns only after entering every
   * stage.
   */
  lemma {:induction false} RunStagesShape(stages: seq<LaterStage>, run: (LaterStage, State) -> Step, s: State)
    ensures var t := RunStages(stages, run, s);
      var n := |t.entered|;
      && n <= |stages| && t.entered == stages[..n]
      && (stages != [] <==> n > 0)
      && (forall j | 0 <= j < n - 1 :: StageRun(stages, run, s, j).end.Returned?)
      && (n > 0 ==> t.step.end == StageRun(stages, run, s, n - 1).end)
      && (n > 0 ==> t.step.state == StageRun(stages, run, s, n - 1).state)
      && (t.step.end.Returned? ==> n == |stages|)
    decreases |stages|
  {
    if stages != [] {
      var first := run(stages[0], s);
      if first.end.Returned? {
        var rest := RunStages(stages[1..], run, first.state);
        RunStagesShape(stages[1..], run, first.state);
        var n := |rest.entered| + 1;
        forall j | 1 <= j <= n - 1
          ensures StageRun(stages, run, s, j) == StageRun(stages[1..], run, first.state, j - 1)
        {
        }
        if rest.entered == [] {
          assert stages[1..] == [];
        }
        assert rest.entered == stages[1..][..n - 1];
        assert [stages[0]] + rest.entered == stages[..n];
      }
    }
  }

  /** A stage that cannot return is the last one a run can enter. */
  lemma NothingRunsAfter(stages: seq<LaterStage>, run: (LaterStage, State) -> Step, s: State, coop: LaterStage -> bool, k: nat)
    requires ReturnsOnlyIf(run, coop)
    requires k < |stages| && !coop(stages[k])
    ensures |RunStages(stages, run, s).entered| <= k + 1
  {
    RunStagesShape(stages, run, s);
    StageRunIs(stages, run, s, k);
  }

  /** A run is still waiting only inside the one stage that may wait, which it entered last. */
  lemma RunStagesWaits(stages: seq<LaterStage>, run: (LaterStage, State) -> Step, s: State)
    requires forall stage, r :: EffectsRespected(stage, run(stage, r))
    ensures var t := RunStages(stages, run, s);
      t.step.end.Waiting? ==> |t.entered| > 0 && t.entered[|t.entered| - 1] == CheckClusterStatus
  {
    RunStagesShape(stages, run, s);
    var t := RunStages(stages, run, s);
    var n := |t.entered|;
    if t.step.end.Waiting? {
      StageRunIs(stages, run, s, n - 1);
    }
  }

  /** Every action in `log` is one that some stage of `entered` may do. */
  predicate ActionsAllowed(log: seq<Action>, entered: seq<Stage>) {
    forall a | a in log :: exists stage | stage in entered :: MayDo(stage, a)
  }

  /** Every action of a run was done by a stage it entered, as that stage may do it. */
  lemma {:induction false} RunStagesActions(stages: seq<LaterStage>, run: (LaterStage, State) -> Step, s: State)
    requires forall stage, r :: EffectsRespected(stage, run(stage, r))
    ensures var t := RunStages(stages, run, s);
      ActionsAllowed(t.step.log, t.entered)
    decreases |stages|
  {
    if stages != [] {
      var first := run(stages[0], s);
      assert EffectsRespected(stages[0], first);
      var t := RunStages(stages, run, s);
      if first.end.Returned? {
        var rest := RunStages(stages[1..], run, first.state);
        RunStagesActions(stages[1..], run, first.state);
        assert t.step.log == first.log + rest.step.log;
        forall a | a in t.step.log ensures exists stage | stage in t.entered :: MayDo(stage, a) {
          if a in first.log {
            assert MayDo(t.entered[0], a);
          } else {
            var stage :| stage in rest.entered && MayDo(stage, a);
            assert stage in t.entered;
          }
        }
      } else {
        forall a | a in t.step.log ensures exists stage | stage in t.entered :: MayDo(stage, a) {
          assert MayDo(t.entered[0], a);
        }
      }
    }
  }

  /**
   * When every stage reads only entries recorded by the stages before it,
   * a run reads no entry while it is unset, keeps every entry it found set,
   * and a run that returns leaves every entry it recorded set.
   */
  lemma {:induction false} RunStagesFields(stages: seq<LaterStage>, run: (LaterStage, State) -> Step, s: State, have: set<Field>)
    requires forall stage, r :: FieldsRespected(stage, r, run(stage, r))
    requires HasFields(s, have) && NeedsMet(stages, have)
    ensures var t := RunStages(stages, run, s);
      && t.step.unsetReads == []
      && HasFields(t.step.state, have)
      && (t.step.end.Returned? ==> HasFields(t.step.state, have + SetsOf(stages)))
    decreases |stages|
  {
    if stages != [] {
      var first := run(stages[0], s);
      assert FieldsRespected(stages[0], s, first);
      assert Needs(stages[0]) <= have && NeedsMet(stages[1..], have + Sets(stages[0]));
      KeptFields(s, first.state, have);
      if first.end.Returned? {
        var h := have + Sets(stages[0]);
        var rest := RunStages(stages[1..], run, first.state);
        assert RunStages(stages, run, s).step == Chain(first, rest.step);
        UnionFields(first.state, have, Sets(stages[0]));
        RunStagesFields(stages[1..], run, first.state, h);
        assert h + SetsOf(stages[1..]) == have + SetsOf(stages);
      } else {
        assert RunStages(stages, run, s).step == first;
      }
    }
  }

  /** Entries set before a step that keeps them are set after it. */
  lemma KeptFields(s: State, t: State, fs: set<Field>)
    requires HasFields(s, fs) && Keeps(s, t)
    ensures HasFields(t, fs)
  {
  }

  /** A record holding two sets of entries holds their union. */
  lemma UnionFields(t: State, fs: set<Field>, gs: set<Field>)
    requires HasFields(t, fs) && HasFields(t, gs)
    ensures HasFields(t, fs + gs)
  {
  }

  /**
   * When the first `k` stages cooperate, a run whose stages read only
   * recorded entries gets past them: it enters stage `k`, or returns when
   * there is none.
   */
  lemma {:induction false} RunReaches(stages: seq<LaterStage>, run: (LaterStage, State) -> Step, s: State,
                                      have: set<Field>, coop: LaterStage -> bool, k: nat)
    requires forall stage, r :: FieldsRespected(stage, r, run(stage, r))
    requires ReturnsIf(run, coop)
    requires HasFields(s, have) && NeedsMet(stages, have)
    requires k <= |stages| && forall j | 0 <= j < k :: coop(stages[j])
    ensures var t := RunStages(stages, run, s);
      && (k < |stages| ==> |t.entered| > k)
      && (k == |stages| ==> t.step.end.Returned?)
    decreases k
  {
    if k > 0 {
      var first := run(stages[0], s);
      assert FieldsRespected(stages[0], s, first);
      assert coop(stages[0]);
      assert first.end.Returned?;
      forall j | 0 <= j < k - 1 ensures coop(stages[1..][j]) {
        assert coop(stages[j + 1]);
      }
      RunReaches(stages[1..], run, first.state, have + Sets(stages[0]), coop, k - 1);
    }
  }

  /** A run returns only when every one of its stages cooperates. */
  lemma RunReturnsOnlyIf(stages: seq<LaterStage>, run: (LaterStage, State) -> Step, s: State, coop: LaterStage -> bool)
    requires ReturnsOnlyIf(run, coop)
    ensures RunStages(stages, run, s).step.end.Returned? ==> forall j | 0 <= j < |stages| :: coop(stages[j])
  {
    var t := RunStages(stages, run, s);
    RunStagesShape(stages, run, s);
    if t.step.end.Returned? {
      forall j | 0 <= j < |stages| ensures coop(stages[j]) {
        StageRunIs(stages, run, s, j);
      }
    }
  }

  /** A run whose stages read only recorded entries returns exactly when every one of its stages cooperates. */
  lemma RunReturnsIff(stages: seq<LaterStage>, run: (LaterStage, State) -> Step, s: State, have: set<Field>, coop: LaterStage -> bool)
    requires forall stage, r :: FieldsRespected(stage, r, run(stage, r))
    requires ReturnsOnlyIf(run, coop) && ReturnsIf(run, coop)
    requires HasFields(s, have) && NeedsMet(stages, have)
    ensures RunStages(stages, run, s).step.end.Returned? <==> forall j | 0 <= j < |stages| :: coop(stages[j])
  {
    RunReturnsOnlyIf(stages, run, s, coop);
    if forall j | 0 <= j < |stages| :: coop(stages[j]) {
      RunReaches(stages, run, s, have, coop, |stages|);
    }
  }

  // ---------------------------------------------------------------------
  // `main`.

  /** `NeedsMet` one stage at a time: stage `k` reads only entries of `h`, and the stages after it start from what it adds. */
  lemma NeedsMetStep(a: seq<LaterStage>, k: nat, stage: LaterStage, h: set<Field>, h': set<Field>)
    requires k < |a| && a[k] == stage
    requires Needs(stage) <= h && h + Sets(stage) == h' && NeedsMet(a[k + 1..], h')
    ensures NeedsMet(a[k..], h)
  {
    assert a[k..][1..] == a[k + 1..];
  }

  /** `SetsOf` one stage at a time. */
  lemma SetsOfStep(a: seq<LaterStage>, k: nat)
    requires k < |a|
    ensures SetsOf(a[k..]) == Sets(a[k]) + SetsOf(a[k + 1..])
  {
    assert a[k..][1..] == a[k + 1..];
  }

  /** From the DNS stage on, every stage reads only entries recorded before it. */
  lemma LateStagesNeedsMet()
    ensures NeedsMet(AfterConfig[9..], {PrivKeyPath, PubKeyPath, UserDataPath, DiskImagePath, OcBinaryPath})
  {
    var a := AfterConfig;
    var h5 := {PrivKeyPath, PubKeyPath, UserDataPath, DiskImagePath, OcBinaryPath};
    var h9 := h5 + {GvproxySocketPath};
    assert a[13..] == [];
    NeedsMetStep(a, 12, CheckClusterStatus, h9, h9 + {KubeconfigPath});
    NeedsMetStep(a, 11, UpdateHostsFile, h9, h9);
    NeedsMetStep(a, 10, ForwardPort, h9, h9);
    NeedsMetStep(a, 9, AddApiServerDns, h5, h9);
  }

  /** From the tool setup on, every stage reads only entries recorded before it. */
  lemma VmStagesNeedsMet()
    ensures NeedsMet(AfterConfig[6..], {PrivKeyPath, PubKeyPath, UserDataPath, DiskImagePath, OcBinaryPath})
  {
    var a := AfterConfig;
    var h5 := {PrivKeyPath, PubKeyPath, UserDataPath, DiskImagePath, OcBinaryPath};
    LateStagesNeedsMet();
    NeedsMetStep(a, 8, StartVm, h5, h5);
    NeedsMetStep(a, 7, EnsureGvproxy, h5, h5);
    NeedsMetStep(a, 6, EnsureMacadam, h5, h5);
  }

  /** From the cloud-init stage on, every stage reads only entries recorded before it. */
  lemma MiddleStagesNeedsMet()
    ensures NeedsMet(AfterConfig[3..], {PrivKeyPath, PubKeyPath})
  {
    var a := AfterConfig;
    var h2 := {PrivKeyPath, PubKeyPath};
    var h3 := h2 + {UserDataPath};
    var h4 := h3 + {DiskImagePath};
    var h5 := h4 + {OcBinaryPath};
    VmStagesNeedsMet();
    assert h5 == {PrivKeyPath, PubKeyPath, UserDataPath, DiskImagePath, OcBinaryPath};
    NeedsMetStep(a, 5, ExtractOcBinary, h4, h5);
    NeedsMetStep(a, 4, ExtractDiskImage, h3, h4);
    NeedsMetStep(a, 3, GenerateCloudInit, h2, h3);
  }

  /** Every stage after the configuration reads only entries an earlier stage recorded. */
  lemma AfterConfigNeedsMet()
    ensures NeedsMet(AfterConfig, {})
  {
    var a := AfterConfig;
    var h2 := {PrivKeyPath, PubKeyPath};
    MiddleStagesNeedsMet();
    NeedsMetStep(a, 2, LoadResources, h2, h2);
    NeedsMetStep(a, 1, GenerateSshKeypair, {}, h2);
    NeedsMetStep(a, 0, EnsureDependencies, {}, {});
    assert a[0..] == a;
  }

  /** The stages from the DNS stage on record the socket and kubeconfig entries. */
  lemma LateStagesSets()
    ensures SetsOf(AfterConfig[9..]) == {GvproxySocketPath, KubeconfigPath}
  {
    var a := AfterConfig;
    assert SetsOf(a[13..]) == {};
    SetsOfStep(a, 12);
    SetsOfStep(a, 11);
    SetsOfStep(a, 10);
    SetsOfStep(a, 9);
  }

  /** The stages from the tool setup on record the same entries as the late ones. */
  lemma VmStagesSets()
    ensures SetsOf(AfterConfig[6..]) == {GvproxySocketPath, KubeconfigPath}
  {
    var a := AfterConfig;
    LateStagesSets();
    SetsOfStep(a, 8);
    SetsOfStep(a, 7);
    SetsOfStep(a, 6);
  }

  /** The stages from the cloud-init stage on record every entry but the key pair. */
  lemma MiddleStagesSets()
    ensures SetsOf(AfterConfig[3..]) == {UserDataPath, DiskImagePath, OcBinaryPath, GvproxySocketPath, KubeconfigPath}
  {
    var a := AfterConfig;
    VmStagesSets();
    SetsOfStep(a, 5);
    SetsOfStep(a, 4);
    SetsOfStep(a, 3);
  }

  /** Together the stages after the configuration record every entry. */
  lemma AfterConfigSetsAll()
    ensures SetsOf(AfterConfig) == AllFields
  {
    MiddleStagesSets();
    SetsOfFirstThree(AfterConfig);
  }

  /** What the first three stages of `a` record, then the rest. */
  lemma SetsOfFirstThree(a: seq<LaterStage>)
    requires |a| >= 3
    ensures SetsOf(a) == Sets(a[0]) + Sets(a[1]) + Sets(a[2]) + SetsOf(a[3..])
  {
    SetsOfStep(a, 2);
    SetsOfStep(a, 1);
    SetsOfStep(a, 0);
    assert a[0..] == a;
  }

  /** The machine lets every stage of `main` return: the configuration loads and every later stage cooperates. */
  predicate Cooperative(host: Host) {
    var c := LoadConfigFromEnv(host.env, host.home, host.existing);
    c.Ok? && forall j | 0 <= j < |AfterConfig| :: StageCooperates(AfterConfig[j], c.value, host)
  }

  /**
   * `main` never reads a path entry of `state` before the stage that records
   * it has returned: no stage ever passes an unset path on as "None".
   */
  lemma WrittenBeforeRead(host: Host, s: State)
    ensures Main(host, s).step.unsetReads == []
  {
    var c := LoadConfigFromEnv(host.env, host.home, host.existing);
    if c.Ok? {
      AfterConfigNeedsMet();
      RunnerRespects(c.value, host);
      RunStagesFields(AfterConfig, StageRunner(c.value, host), s, {});
    }
  }

  /**
   * The stages after the configuration, run by any runner whose stages keep
   * to their effects: they enter a non-empty prefix of the stages, every
   * stage entered before the last returned, the run ends as the last
   * entered stage ends, and it returns or is still waiting only after
   * entering every stage.
   */
  lemma AfterConfigShape(f: (LaterStage, State) -> Step, s: State)
    requires forall stage, r :: EffectsRespected(stage, f(stage, r))
    ensures var t := RunStages(AfterConfig, f, s);
      var n := |t.entered|;
      && 0 < n <= |AfterConfig| && t.entered == AfterConfig[..n]
      && [LoadConfig] + t.entered == PipelineOrder[..n + 1]
      && (forall j | 0 <= j < n - 1 :: StageRun(AfterConfig, f, s, j).end.Returned?)
      && t.step.end == StageRun(AfterConfig, f, s, n - 1).end
      && (t.step.end.Returned? || t.step.end.Waiting? ==> n == |AfterConfig|)
  {
    var t := RunStages(AfterConfig, f, s);
    RunStagesShape(AfterConfig, f, s);
    RunStagesWaits(AfterConfig, f, s);
    PipelinePrefix(|t.entered|);
    if t.step.end.Waiting? {
      OnlyLastIsCluster(|t.entered| - 1);
    }
  }

  /** `main`'s stages are the configuration followed by the others. */
  lemma PipelinePrefix(n: nat)
    requires n <= |AfterConfig|
    ensures PipelineOrder[..n + 1] == [LoadConfig] + AfterConfig[..n]
  {
  }

  /** The cluster check is the last stage and no other. */
  lemma OnlyLastIsCluster(i: nat)
    requires i < |AfterConfig| && AfterConfig[i] == CheckClusterStatus
    ensures i == |AfterConfig| - 1
  {
    var a := AfterConfig[..12];
    assert a == [EnsureDependencies, GenerateSshKeypair, LoadResources, GenerateCloudInit,
      ExtractDiskImage, ExtractOcBinary, EnsureMacadam, EnsureGvproxy, StartVm,
      AddApiServerDns, ForwardPort, UpdateHostsFile];
    if i < 12 {
      assert false;
    }
  }

  /** No stage from the DNS stage on is among the first `k` stages after the configuration, for `k` up to 9. */
  lemma BeforeNetwork(k: nat)
    requires k <= 9
    ensures AddApiServerDns !in AfterConfig[..k] && ForwardPort !in AfterConfig[..k] && UpdateHostsFile !in AfterConfig[..k]
  {
    assert AfterConfig[..k] == AfterConfig[..9][..k];
  }

  /** No stage from the port forward on is among the first `k` stages after the configuration, for `k` up to 10. */
  lemma BeforeForward(k: nat)
    requires k <= 10
    ensures ForwardPort !in AfterConfig[..k] && UpdateHostsFile !in AfterConfig[..k]
  {
    assert AfterConfig[..k] == AfterConfig[..10][..k];
  }

  /**
   * A run of `main` enters `load_config_from_env` and then a prefix of the
   * other stages in source order; it fails at the configuration only with
   * the configuration's error; otherwise every stage entered before the
   * last returned and the run ends exactly as the last stage it entered
   * ends; it returns, or is still waiting, only after entering every stage.
   */
  lemma MainShape(host: Host, s: State)
    ensures var t := Main(host, s);
      var c := LoadConfigFromEnv(host.env, host.home, host.existing);
      var n := |t.entered|;
      && 0 < n <= |PipelineOrder| && t.entered == PipelineOrder[..n]
      && (c.Err? ==> n == 1 && t.step == Step(s, [], [], Threw(c.error)))
      && (c.Ok? ==> n > 1)
      && (c.Ok? ==>
            var run := StageRunner(c.value, host);
            && (forall j | 0 <= j < n - 2 :: StageRun(AfterConfig, run, s, j).end.Returned?)
            && t.step.end == StageRun(AfterConfig, run, s, n - 2).end)
      && (t.step.end.Returned? ==> t.entered == PipelineOrder)
      && (t.step.end.Waiting? ==> t.entered == PipelineOrder)
  {
    var c := LoadConfigFromEnv(host.env, host.home, host.existing);
    if c.Ok? {
      RunnerRespects(c.value, host);
      AfterConfigShape(StageRunner(c.value, host), s);
    }
  }

  /** A configuration error ends `main` before any command runs, with that error's report. */
  lemma ConfigErrorLaunchesNothing(host: Host, s: State)
    requires LoadConfigFromEnv(host.env, host.home, host.existing).Err?
    ensures Main(host, s).step.log == [] && Main(host, s).entered == [LoadConfig]
    ensures MainResult(host, s) == Finished(ReportFor(LoadConfigFromEnv(host.env, host.home, host.existing).error))
  {
  }

  /** Requests only from the DNS and forwarding stages, the hosts file only from its own stage, each among `entered`. */
  predicate EffectsWithin(log: seq<Action>, entered: seq<Stage>) {
    forall a | a in log ::
      && (a.Post? ==>
            || (AddApiServerDns in entered && a.endpoint == DnsEndpoint && (a.request == CrcZone || a.request == AppsZone))
            || (ForwardPort in entered && a == Post(ExposeEndpoint, ApiForward)))
      && (a == Run(HostsArgv) ==> UpdateHostsFile in entered)
  }

  /** Every action of a run by a runner whose stages keep to their effects is one an entered stage may do, with `load_config_from_env` entered first. */
  lemma RunEffectsWithin(f: (LaterStage, State) -> Step, s: State)
    requires forall stage, r :: EffectsRespected(stage, f(stage, r))
    ensures var t := RunStages(AfterConfig, f, s);
      EffectsWithin(t.step.log, [LoadConfig] + t.entered)
  {
    var t := RunStages(AfterConfig, f, s);
    var e := [LoadConfig] + t.entered;
    RunStagesActions(AfterConfig, f, s);
    forall a | a in t.step.log
      ensures && (a.Post? ==>
                    || (AddApiServerDns in e && a.endpoint == DnsEndpoint && (a.request == CrcZone || a.request == AppsZone))
                    || (ForwardPort in e && a == Post(ExposeEndpoint, ApiForward)))
              && (a == Run(HostsArgv) ==> UpdateHostsFile in e)
    {
      var stage :| stage in t.entered && MayDo(stage, a);
      assert stage in e;
    }
  }

  /**
   * Every request `main` posts is a DNS zone from `add_api_server_dns` or
   * the forward of `forward_port_gvproxy`, and the hosts file is updated
   * only by `update_hosts_file`, each only once that stage is entered.
   */
  lemma MainActions(host: Host, s: State)
    ensures var t := Main(host, s);
      forall a | a in t.step.log ::
        && (a.Post? ==>
              || (AddApiServerDns in t.entered && a.endpoint == DnsEndpoint && (a.request == CrcZone || a.request == AppsZone))
              || (ForwardPort in t.entered && a == Post(ExposeEndpoint, ApiForward)))
        && (a == Run(HostsArgv) ==> UpdateHostsFile in t.entered)
  {
    var c := LoadConfigFromEnv(host.env, host.home, host.existing);
    if c.Ok? {
      RunnerRespects(c.value, host);
      RunEffectsWithin(StageRunner(c.value, host), s);
    }
  }

  /**
   * A runner whose stages read only recorded entries and return exactly as
   * `coop` allows gets through every stage after the configuration exactly
   * when `coop` holds of each.
   */
  lemma AfterConfigReturnsIff(f: (LaterStage, State) -> Step, s: State, coop: LaterStage -> bool)
    requires forall stage, r :: FieldsRespected(stage, r, f(stage, r))
    requires ReturnsOnlyIf(f, coop) && ReturnsIf(f, coop)
    ensures RunStages(AfterConfig, f, s).step.end.Returned? <==> forall j | 0 <= j < |AfterConfig| :: coop(AfterConfig[j])
  {
    AfterConfigNeedsMet();
    RunReturnsIff(AfterConfig, f, s, {}, coop);
  }

  /** A run that returns entered every stage and left set every entry the stages record. */
  lemma RunCompletes(stages: seq<LaterStage>, f: (LaterStage, State) -> Step, s: State, all: set<Field>)
    requires forall stage, r :: FieldsRespected(stage, r, f(stage, r))
    requires NeedsMet(stages, {}) && SetsOf(stages) == all
    ensures var t := RunStages(stages, f, s);
      t.step.end.Returned? ==> t.entered == stages && HasFields(t.step.state, all)
  {
    RunStagesFields(stages, f, s, {});
    RunStagesShape(stages, f, s);
    assert {} + SetsOf(stages) == all;
  }

  /** A run of the stages after the configuration that returns entered them all and left every path entry set. */
  lemma AfterConfigCompletes(f: (LaterStage, State) -> Step, s: State)
    requires forall stage, r :: FieldsRespected(stage, r, f(stage, r))
    ensures var t := RunStages(AfterConfig, f, s);
      t.step.end.Returned? ==> [LoadConfig] + t.entered == PipelineOrder && HasFields(t.step.state, AllFields)
  {
    AfterConfigNeedsMet();
    AfterConfigSetsAll();
    RunCompletes(AfterConfig, f, s, AllFields);
  }

  /**
   * `main` returns 0 exactly when the machine cooperates with every stage;
   * it then entered every stage and left every path entry set.
   */
  lemma MainSucceedsIff(host: Host, s: State)
    ensures MainResult(host, s) == Finished(Success) <==> Cooperative(host)
    ensures MainResult(host, s) == Finished(Success) ==>
      Main(host, s).entered == PipelineOrder && HasFields(Main(host, s).step.state, AllFields)
  {
    var t := Main(host, s);
    var c := LoadConfigFromEnv(host.env, host.home, host.existing);
    if t.step.end.Threw? {
      ReportForSpec(t.step.end.error);
    }
    if c.Ok? {
      RunnerRespects(c.value, host);
      AfterConfigReturnsIff(StageRunner(c.value, host), s, Cooperates(c.value, host));
      AfterConfigCompletes(StageRunner(c.value, host), s);
    }
  }

  /**
   * Any runner whose DNS stage cannot return stops there at the latest:
   * the API server port is never forwarded, the hosts file never touched,
   * and the run ends with an exception.
   */
  lemma StopsAtDns(f: (LaterStage, State) -> Step, s: State, coop: LaterStage -> bool)
    requires forall stage, r :: EffectsRespected(stage, f(stage, r))
    requires ReturnsOnlyIf(f, coop) && !coop(AddApiServerDns)
    ensures var t := RunStages(AfterConfig, f, s);
      && |t.entered| <= 10 && [LoadConfig] + t.entered <= PipelineOrder[..11]
      && Post(ExposeEndpoint, ApiForward) !in t.step.log
      && Run(HostsArgv) !in t.step.log
      && t.step.end.Threw?
  {
    var t := RunStages(AfterConfig, f, s);
    AfterConfigShape(f, s);
    RunEffectsWithin(f, s);
    NothingRunsAfter(AfterConfig, f, s, coop, 9);
    BeforeForward(|t.entered|);
    assert PipelineOrder[..|t.entered| + 1] == PipelineOrder[..11][..|t.entered| + 1];
    assert |DnsEndpoint| != |ExposeEndpoint|;
  }

  /**
   * When gvproxy cannot be found at the DNS stage, the run stops there:
   * the API server port is never forwarded, the hosts file is never
   * touched, and `main` reports a failure.
   */
  lemma DnsDiscoveryFailureSkipsForward(host: Host, s: State)
    requires GetGvproxySocketPath(host.pgrepAtDns).Err?
    ensures var t := Main(host, s);
      && t.entered <= PipelineOrder[..11]
      && Post(ExposeEndpoint, ApiForward) !in t.step.log
      && Run(HostsArgv) !in t.step.log
      && t.step.end.Threw? && MainResult(host, s).report.Failure?
  {
    var t := Main(host, s);
    var c := LoadConfigFromEnv(host.env, host.home, host.existing);
    if c.Ok? {
      RunnerRespects(c.value, host);
      StopsAtDns(StageRunner(c.value, host), s, Cooperates(c.value, host));
    }
    ReportForSpec(t.step.end.error);
  }

  /**
   * Any runner whose VM stage cannot return stops there at the latest:
   * nothing is posted, the hosts file is never touched, and the run ends
   * with an exception.
   */
  lemma StopsAtVm(f: (LaterStage, State) -> Step, s: State, coop: LaterStage -> bool)
    requires forall stage, r :: EffectsRespected(stage, f(stage, r))
    requires ReturnsOnlyIf(f, coop) && !coop(StartVm)
    ensures var t := RunStages(AfterConfig, f, s);
      && |t.entered| <= 9
      && (forall a | a in t.step.log :: !a.Post?)
      && Run(HostsArgv) !in t.step.log
      && t.step.end.Threw?
  {
    var t := RunStages(AfterConfig, f, s);
    AfterConfigShape(f, s);
    RunEffectsWithin(f, s);
    NothingRunsAfter(AfterConfig, f, s, coop, 8);
    BeforeNetwork(|t.entered|);
  }

  /** A runner whose first `k` stages cooperate, and whose stages read only recorded entries, enters stage `k`. */
  lemma AfterConfigReaches(f: (LaterStage, State) -> Step, s: State, coop: LaterStage -> bool, k: nat)
    requires forall stage, r :: FieldsRespected(stage, r, f(stage, r))
    requires ReturnsIf(f, coop)
    requires k < |AfterConfig| && forall j | 0 <= j < k :: coop(AfterConfig[j])
    ensures |RunStages(AfterConfig, f, s).entered| > k
  {
    AfterConfigNeedsMet();
    RunReaches(AfterConfig, f, s, {}, coop, k);
  }

  /** A run that entered exactly the stages up to stage `k` ends as stage `k` ends, from the record the earlier stages left. */
  lemma EndsAtStage(f: (LaterStage, State) -> Step, s: State, k: nat)
    requires k < |AfterConfig| && |RunStages(AfterConfig, f, s).entered| == k + 1
    ensures var t := RunStages(AfterConfig, f, s);
      && [LoadConfig] + t.entered == PipelineOrder[..k + 2]
      && t.step.end == f(AfterConfig[k], StateAt(AfterConfig, f, s, k)).end
  {
    RunStagesShape(AfterConfig, f, s);
    StageRunIs(AfterConfig, f, s, k);
    PipelinePrefix(k + 1);
  }

  /**
   * A runner whose first eight stages cooperate and whose stages read only
   * recorded entries enters exactly the stages up to `start_macadam_vm`
   * when that one cannot return, and ends as that stage always ends.
   */
  lemma ReachesVm(f: (LaterStage, State) -> Step, s: State, coop: LaterStage -> bool, e: End)
    requires forall stage, r :: FieldsRespected(stage, r, f(stage, r))
    requires ReturnsOnlyIf(f, coop) && ReturnsIf(f, coop) && !coop(StartVm)
    requires forall j | 0 <= j < 8 :: coop(AfterConfig[j])
    requires forall r :: f(StartVm, r).end == e
    ensures var t := RunStages(AfterConfig, f, s);
      [LoadConfig] + t.entered == PipelineOrder[..10] && t.step.end == e
  {
    AfterConfigReaches(f, s, coop, 8);
    NothingRunsAfter(AfterConfig, f, s, coop, 8);
    EndsAtStage(f, s, 8);
  }

  /**
   * When `macadam init` does not succeed, `main` stops at `start_macadam_vm`
   * at the latest: nothing is posted to gvproxy, the hosts file is never
   * touched, and it reports a failure.
   */
  lemma VmInitFailureStopsBeforeNetwork(host: Host, s: State)
    requires !Succeeds(host.vmInit)
    ensures var t := Main(host, s);
      && |t.entered| <= 10
      && (forall a | a in t.step.log :: !a.Post?)
      && Run(HostsArgv) !in t.step.log
      && MainResult(host, s).Finished? && MainResult(host, s).report.Failure?
  {
    var t := Main(host, s);
    var c := LoadConfigFromEnv(host.env, host.home, host.existing);
    if c.Ok? {
      RunnerRespects(c.value, host);
      StopsAtVm(StageRunner(c.value, host), s, Cooperates(c.value, host));
    }
    ReportForSpec(t.step.end.error);
  }

  /**
   * When every stage before `start_macadam_vm` cooperated and `macadam init`
   * does not succeed, `main` entered exactly the stages up to that one, and
   * a failed status or a missing executable is reported as the VM error.
   */
  lemma VmInitFailureReport(host: Host, s: State)
    requires !Succeeds(host.vmInit)
    requires var c := LoadConfigFromEnv(host.env, host.home, host.existing);
      c.Ok? && forall j | 0 <= j < 8 :: StageCooperates(AfterConfig[j], c.value, host)
    ensures Main(host, s).entered == PipelineOrder[..10]
    ensures host.vmInit.NotFound? || host.vmInit.Exited? ==>
      MainResult(host, s) == Finished(Failure("Error: " + VmInitFailed))
  {
    var c := LoadConfigFromEnv(host.env, host.home, host.existing);
    var f := StageRunner(c.value, host);
    RunnerRespects(c.value, host);
    var e := StartMacadamVmStep(host, s).end;
    VmStageEnds(c.value, host, s);
    ReachesVm(f, s, Cooperates(c.value, host), e);
    StartMacadamVmStepSpec(host, s);
  }

  /** How `start_macadam_vm` ends depends on the machine's answers only, not on the record it starts from. */
  lemma VmStageEnds(config: Config, host: Host, r0: State)
    ensures forall r :: StageRunner(config, host)(StartVm, r).end == StartMacadamVmStep(host, r0).end
  {
    forall r ensures StageRunner(config, host)(StartVm, r).end == StartMacadamVmStep(host, r0).end {
      StartMacadamVmStepSpec(host, r);
      StartMacadamVmStepSpec(host, r0);
    }
  }
}
