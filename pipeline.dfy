/**
 * The provisioning driver of run-with-macadam.py performed in place: the
 * module-level `state` record as an object whose entries the stages assign,
 * each stage as a method, and `main` as the method that calls them in
 * source order. Every method is proved to do exactly what the matching
 * function of the `Stages` module describes, so the properties proved
 * there and in `Runs` hold of this code. The commands launched and the
 * requests posted are appended to a ghost log, and each path entry read
 * while still unset to a ghost list.
 */
module Pipeline {
  import opened Optional
  import opened Text
  import opened Commands
  import opened MacadamConfig
  import opened BundlePaths
  import opened GvproxyDiscovery
  import opened Readiness
  import opened Stages
  import opened Runs

  /** A way of running each stage from a record. */
  type Runner = (LaterStage, State) -> Step

  /**
   * After the first `k` of `stages` returned from `s0`, doing `done`, the
   * whole run is `done` followed by the run of the remaining stages from
   * the record `done` left.
   */
  ghost predicate Reached(stages: seq<LaterStage>, run: Runner, s0: State, done: Step, k: nat)
    requires k <= |stages|
  {
    var rest := RunStages(stages[k..], run, done.state);
    RunStages(stages, run, s0) == Trace(Chain(done, rest.step), stages[..k] + rest.entered)
  }

  /** Before any stage, the run is all still to come. */
  lemma ReachedStart(stages: seq<LaterStage>, run: Runner, s0: State) returns (start: Step)
    ensures start == Skip(s0) && Reached(stages, run, s0, start, 0)
  {
    start := Skip(s0);
    assert stages[0..] == stages;
    assert stages[..0] == [];
  }

  /** One stage further along a run of `stages`. */
  lemma ReachedNext(stages: seq<LaterStage>, run: Runner, s0: State, done: Step, k: nat, first: Step)
    requires k < |stages| && Reached(stages, run, s0, done, k) && run(stages[k], done.state) == first
    ensures first.end.Returned? ==> Reached(stages, run, s0, Chain(done, first), k + 1)
    ensures !first.end.Returned? ==> RunStages(stages, run, s0) == Trace(Chain(done, first), stages[..k + 1])
  {
    RunStagesAdvance(stages, run, s0, done, k, done.state);
  }

  /**
   * Stage `k` performed as `first`: if it returned, the run has reached
   * stage `k + 1`, having done `next`; otherwise it ends with `next`. What the two steps
   * appended to a log or a list is what `next` appends.
   */
  lemma Advanced(stages: seq<LaterStage>, run: Runner, s0: State, log0: seq<Action>, reads0: seq<Field>,
                 done: Step, k: nat, stage: LaterStage, first: Step)
    returns (next: Step)
    requires k < |stages| && stages[k] == stage
    requires Reached(stages, run, s0, done, k) && run(stage, done.state) == first
    ensures next == Chain(done, first)
    ensures log0 + done.log + first.log == log0 + next.log
    ensures reads0 + done.unsetReads + first.unsetReads == reads0 + next.unsetReads
    ensures first.end.Returned? ==> Reached(stages, run, s0, next, k + 1)
    ensures !first.end.Returned? ==> RunStages(stages, run, s0) == Trace(next, stages[..k + 1])
  {
    next := Chain(done, first);
    Regroup(log0, done.log, first.log);
    Regroup(reads0, done.unsetReads, first.unsetReads);
    ReachedNext(stages, run, s0, done, k, first);
  }

  /** `stages` lists the stages `main` calls after loading the configuration, in source order. */
  ghost predicate MainOrder(stages: seq<LaterStage>) {
    && |stages| == 13
    && stages[0] == Stage.EnsureDependencies && stages[1] == Stage.GenerateSshKeypair
    && stages[2] == Stage.LoadResources && stages[3] == Stage.GenerateCloudInit
    && stages[4] == Stage.ExtractDiskImage && stages[5] == Stage.ExtractOcBinary
    && stages[6] == Stage.EnsureMacadam && stages[7] == Stage.EnsureGvproxy
    && stages[8] == Stage.StartVm && stages[9] == Stage.AddApiServerDns
    && stages[10] == Stage.ForwardPort && stages[11] == Stage.UpdateHostsFile
    && stages[12] == Stage.CheckClusterStatus
  }

  lemma AfterConfigInMainOrder()
    ensures MainOrder(AfterConfig)
  {
  }

  /** The first `k` of `stages` were all called and returned, having done `done`. */
  ghost predicate Going(stages: seq<LaterStage>, run: Runner, s0: State, done: Step, k: nat) {
    && k <= |stages|
    && done.end.Returned?
    && Reached(stages, run, s0, done, k)
  }

  /** The run of `stages` stopped at `stages[k - 1]`, which did not return, having done `done`. */
  ghost predicate Stopped(stages: seq<LaterStage>, run: Runner, s0: State, done: Step, k: nat) {
    && 0 < k <= |stages|
    && !done.end.Returned?
    && RunStages(stages, run, s0) == Trace(done, stages[..k])
  }

  /** After the last stage returned, the run is what the stages did. */
  lemma RanToEnd(stages: seq<LaterStage>, run: Runner, s0: State, done: Step)
    requires done.end.Returned? && Reached(stages, run, s0, done, |stages|)
    ensures RunStages(stages, run, s0) == Trace(done, stages)
  {
    assert stages[|stages|..] == [];
    assert stages[..|stages|] == stages;
    assert done.log + [] == done.log;
    assert done.unsetReads + [] == done.unsetReads;
  }

  /** Appending in steps is appending what the steps appended, grouped either way. */
  lemma Regroup<T>(a: seq<T>, b: seq<T>, c: seq<T>)
    ensures a + b + c == a + (b + c)
  {
  }

  lemma Regroup4<T>(a: seq<T>, b: seq<T>, c: seq<T>, d: seq<T>)
    ensures a + b + c + d == a + (b + (c + d))
  {
    Regroup(a, b, c);
    Regroup(a, b + c, d);
    Regroup(b, c, d);
  }

  /**
   * The module-level `state` dictionary. The ghost `log` records every
   * command launched and every request posted; `unsetReads` collects each
   * path entry that was read while still `None`.
   */
  class Session {
    var privKeyPath: Option<string>
    var pubKeyPath: Option<string>
    var userDataPath: Option<string>
    var diskImagePath: Option<string>
    var gvproxySocketPath: Option<string>
    var ocBinaryPath: Option<string>
    var kubeconfigPath: Option<string>
    var pullSecret: string
    var pubKey: string
    ghost var log: seq<Action>
    ghost var unsetReads: seq<Field>

    /** The entries of the dictionary as a record. */
    function Snapshot(): State
      reads this
    {
      State(privKeyPath, pubKeyPath, userDataPath, diskImagePath, gvproxySocketPath,
            ocBinaryPath, kubeconfigPath, pullSecret, pubKey)
    }

    /**
     * Since the pre-state, the object has done `st`: it holds the record
     * `st` leaves, and has launched, posted and read unset what `st` did.
     */
    twostate predicate Performed(st: Step)
      reads this
    {
      && Snapshot() == st.state
      && log == old(log) + st.log
      && unsetReads == old(unsetReads) + st.unsetReads
    }

    /** The dictionary as the module defines it: every path unset, both texts empty. */
    constructor ()
      ensures Snapshot() == InitialState
      ensures log == [] && unsetReads == []
    {
      privKeyPath, pubKeyPath, userDataPath, diskImagePath := None, None, None, None;
      gvproxySocketPath, ocBinaryPath, kubeconfigPath := None, None, None;
      pullSecret, pubKey := "", "";
      log, unsetReads := [], [];
    }

    /** `generate_ssh_keypair`. */
    method GenerateSshKeypair(host: Host) returns (o: Outcome)
      modifies this
      ensures Performed(GenerateSshKeypairStep(host, old(Snapshot())))
      ensures OfOutcome(o) == GenerateSshKeypairStep(host, old(Snapshot())).end
    {
      var keyFile := InCwd(host, KeyFileName);
      var argv := KeygenArgv(keyFile);
      log := log + [Run(argv)];
      var r := RunCommand(argv, host.keygen, true);
      if r.Err? {
        return if r.error.IsMacadamError() then Raised(MacadamError(KeygenFailed)) else Raised(r.error);
      }
      privKeyPath := Some(keyFile);
      pubKeyPath := Some(keyFile + ".pub");
      return Done;
    }

    /** `load_resources`. */
    method LoadResources(config: Config, host: Host) returns (o: Outcome)
      modifies this
      ensures Performed(LoadResourcesStep(config, host, old(Snapshot())))
      ensures OfOutcome(o) == LoadResourcesStep(config, host, old(Snapshot())).end
    {
      if config.pullSecretPath !in host.existing {
        return Raised(MacadamError(PullSecretNotFound(config.pullSecretPath)));
      }
      unsetReads := unsetReads + ReadOf(PubKeyPath, Snapshot());
      if pubKeyPath.None? || host.pubKeyText.None? {
        return Raised(MacadamError(PubKeyNotFound(PathArg(pubKeyPath))));
      }
      pullSecret := Strip(host.pullSecretText);
      pubKey := Strip(host.pubKeyText.value);
      return Done;
    }

    /** `generate_cloud_init`, which cannot fail once its file is written. */
    method GenerateCloudInit(host: Host)
      modifies this
      ensures Performed(GenerateCloudInitStep(host, old(Snapshot())))
      ensures GenerateCloudInitStep(host, old(Snapshot())).end.Returned?
    {
      userDataPath := Some(InCwd(host, UserDataFile));
    }

    /** `extract_disk_image`. */
    method ExtractDiskImage(config: Config, host: Host) returns (o: Outcome)
      modifies this
      ensures Performed(ExtractDiskImageStep(config, host, old(Snapshot())))
      ensures OfOutcome(o) == ExtractDiskImageStep(config, host, old(Snapshot())).end
    {
      if config.crcBundlePath !in host.existing {
        return Raised(MacadamError(BundleNotFound(config.crcBundlePath)));
      }
      var argv := ExtractArgv(config.crcBundlePath, DiskImageName);
      log := log + [Run(argv)];
      var r := RunCommand(argv, host.diskTar, true);
      if r.Err? {
        return Raised(r.error);
      }
      diskImagePath := Some(InCwd(host, DiskImageName));
      if host.diskImageSize == 0 {
        return Raised(MacadamError(DiskImageEmpty));
      }
      return Done;
    }

    /** `extract_oc_binary`. */
    method ExtractOcBinary(config: Config, host: Host) returns (o: Outcome)
      modifies this
      ensures Performed(ExtractOcBinaryStep(config, host, old(Snapshot())))
      ensures OfOutcome(o) == ExtractOcBinaryStep(config, host, old(Snapshot())).end
    {
      if config.crcBundlePath !in host.existing {
        return Raised(MacadamError(BundleNotFound(config.crcBundlePath)));
      }
      var argv := ExtractArgv(config.crcBundlePath, OcBinaryName);
      log := log + [Run(argv)];
      var r := RunCommand(argv, host.ocTar, true);
      if r.Err? {
        return Raised(r.error);
      }
      var oc := InCwd(host, OcBinaryName);
      ocBinaryPath := Some(oc);
      if host.ocBinarySize == 0 {
        return Raised(MacadamError(OcBinaryEmpty));
      }
      log := log + [Run(ChmodArgv(oc))];
      var c := RunCommand(ChmodArgv(oc), host.chmod, true);
      return if c.Ok? then Done else Raised(c.error);
    }

    /** `start_macadam_vm`. */
    method StartMacadamVm(host: Host) returns (o: Outcome)
      modifies this
      ensures Performed(StartMacadamVmStep(host, old(Snapshot())))
      ensures OfOutcome(o) == StartMacadamVmStep(host, old(Snapshot())).end
    {
      unsetReads := unsetReads + ReadOf(DiskImagePath, Snapshot()) + ReadOf(PrivKeyPath, Snapshot()) + ReadOf(UserDataPath, Snapshot());
      var init := InitArgv(PathArg(diskImagePath), PathArg(privKeyPath), PathArg(userDataPath));
      log := log + [Run(init)];
      var r := RunCommand(init, host.vmInit, true);
      if r.Err? {
        return if r.error.IsMacadamError() then Raised(VMError(VmInitFailed)) else Raised(r.error);
      }
      log := log + [Run(StartArgv)];
      var started := RunCommand(StartArgv, host.vmStart, false);
      return if started.Ok? then Done else Raised(started.error);
    }

    /** `gvproxy_post`. */
    method GvproxyPost(endpoint: string, request: Request, reply: HttpReply) returns (o: Outcome)
      modifies this
      ensures Performed(GvproxyPostStep(endpoint, request, reply, old(Snapshot())))
      ensures OfOutcome(o) == GvproxyPostStep(endpoint, request, reply, old(Snapshot())).end
    {
      unsetReads := unsetReads + ReadOf(GvproxySocketPath, Snapshot());
      if gvproxySocketPath.None? || gvproxySocketPath.value == "" {
        return Raised(MacadamError(SocketPathUnset));
      }
      log := log + [Post(endpoint, request)];
      o := PostOutcome(endpoint, reply);
    }

    /** `add_api_server_dns`. */
    method AddApiServerDns(host: Host) returns (o: Outcome)
      modifies this
      ensures Performed(AddApiServerDnsStep(host, old(Snapshot())))
      ensures OfOutcome(o) == AddApiServerDnsStep(host, old(Snapshot())).end
    {
      log := log + [Run(PgrepArgv)];
      var d := GetGvproxySocketPath(host.pgrepAtDns);
      if d.Err? {
        return Raised(d.error);
      }
      gvproxySocketPath := Some(d.value);
      ghost var found := Step(Snapshot(), [Run(PgrepArgv)], [], Returned);
      o := GvproxyPost(DnsEndpoint, CrcZone, host.crcZoneReply);
      ghost var crc := GvproxyPostStep(DnsEndpoint, CrcZone, host.crcZoneReply, found.state);
      Regroup(old(log), found.log, crc.log);
      Regroup(old(unsetReads), found.unsetReads, crc.unsetReads);
      if o.Raised? {
        assert AddApiServerDnsStep(host, old(Snapshot())) == Chain(found, crc);
        return;
      }
      o := GvproxyPost(DnsEndpoint, AppsZone, host.appsZoneReply);
      ghost var apps := GvproxyPostStep(DnsEndpoint, AppsZone, host.appsZoneReply, crc.state);
      Regroup4(old(log), found.log, crc.log, apps.log);
      Regroup4(old(unsetReads), found.unsetReads, crc.unsetReads, apps.unsetReads);
      assert AddApiServerDnsStep(host, old(Snapshot())) == Chain(found, Chain(crc, apps));
    }

    /** `forward_port_gvproxy`. */
    method ForwardPortGvproxy(host: Host) returns (o: Outcome)
      modifies this
      ensures Performed(ForwardPortGvproxyStep(host, old(Snapshot())))
      ensures OfOutcome(o) == ForwardPortGvproxyStep(host, old(Snapshot())).end
    {
      o := GvproxyPost(ExposeEndpoint, ApiForward, host.forwardReply);
    }

    /**
     * `update_hosts_file`. The command is checked, so a non-zero status
     * raises inside `run_command` and the function's own status test is
     * never reached with one.
     */
    method UpdateHostsFile(host: Host) returns (o: Outcome)
      modifies this
      ensures Performed(UpdateHostsFileStep(host, old(Snapshot())))
      ensures OfOutcome(o) == UpdateHostsFileStep(host, old(Snapshot())).end
    {
      log := log + [Run(HostsArgv)];
      var r := RunCommand(HostsArgv, host.hostsUpdate, true);
      if r.Err? {
        return Raised(r.error);
      }
      if r.value.returncode != 0 {
        assert false;
        return Raised(MacadamError(HostsEntryFailed));
      }
      return Done;
    }

    /** `copy_kubeconfig_from_vm`. */
    method CopyKubeconfigFromVm(host: Host) returns (o: Outcome)
      modifies this
      ensures Performed(CopyKubeconfigFromVmStep(host, old(Snapshot())))
      ensures OfOutcome(o) == CopyKubeconfigFromVmStep(host, old(Snapshot())).end
    {
      log := log + [Run(PgrepArgv)];
      var d := GetSshPort(host.pgrepAtCopy);
      if d.Err? {
        return Raised(d.error);
      }
      unsetReads := unsetReads + ReadOf(PrivKeyPath, Snapshot());
      var kc := InCwd(host, KubeconfigFile);
      var argv := ScpArgv(d.value, PathArg(privKeyPath), kc);
      log := log + [Run(argv)];
      var r := RunCommand(argv, host.scp, true);
      if r.Err? {
        return Raised(r.error);
      }
      kubeconfigPath := Some(kc);
      if host.kubeconfigSize == 0 {
        return Raised(MacadamError(KubeconfigEmpty));
      }
      return Done;
    }

    /** `wait_for_ssh`. */
    method WaitForSsh(host: Host) returns (res: PollResult)
      modifies this
      ensures Performed(WaitForSshStep(host, old(Snapshot())))
      ensures OfPoll(res) == WaitForSshStep(host, old(Snapshot())).end
    {
      res := Polled(SshProbe, SshArgv, host.sshAttempts);
    }

    /** A loop over a fixed command: one entry in the log per command issued, no entry read. */
    method Polled(p: Probe, argv: seq<string>, attempts: seq<Invocation>) returns (res: PollResult)
      requires argv != []
      modifies this
      ensures Performed(PollStep(p, argv, attempts, old(Snapshot())))
      ensures OfPoll(res) == PollStep(p, argv, attempts, old(Snapshot())).end
    {
      var n;
      n, res := Poll(p, argv, attempts);
      log := log + Repeat(Run(argv), n);
    }

    /** `wait_for_api_server`: the kubeconfig loop, the copy, then the node loop. */
    method WaitForApiServer(host: Host) returns (res: PollResult)
      modifies this
      ensures Performed(WaitForApiServerStep(host, old(Snapshot())))
      ensures OfPoll(res) == WaitForApiServerStep(host, old(Snapshot())).end
    {
      res := Polled(KubeconfigProbe, KubeconfigArgv, host.kubeconfigAttempts);
      ghost var kube := PollStep(KubeconfigProbe, KubeconfigArgv, host.kubeconfigAttempts, old(Snapshot()));
      if !res.Converged? {
        assert WaitForApiServerStep(host, old(Snapshot())) == kube;
        return;
      }
      var copied := CopyKubeconfigFromVm(host);
      ghost var copy := CopyKubeconfigFromVmStep(host, old(Snapshot()));
      Regroup(old(log), kube.log, copy.log);
      Regroup(old(unsetReads), kube.unsetReads, copy.unsetReads);
      if copied.Raised? {
        assert WaitForApiServerStep(host, old(Snapshot())) == Chain(kube, copy);
        return PollRaised(copied.error);
      }
      res := WaitForNode(host);
      ghost var nodes := NodeLoopStep(host, copy.state);
      Regroup4(old(log), kube.log, copy.log, nodes.log);
      Regroup4(old(unsetReads), kube.unsetReads, copy.unsetReads, nodes.unsetReads);
      assert WaitForApiServerStep(host, old(Snapshot())) == Chain(kube, Chain(copy, nodes));
    }

    /** The `oc get node` loop of `wait_for_api_server`. */
    method WaitForNode(host: Host) returns (res: PollResult)
      modifies this
      ensures Performed(NodeLoopStep(host, old(Snapshot())))
      ensures OfPoll(res) == NodeLoopStep(host, old(Snapshot())).end
    {
      // The loop passes `str(state[...])` of the same two entries on every attempt.
      unsetReads := unsetReads + ReadOf(OcBinaryPath, Snapshot()) + ReadOf(KubeconfigPath, Snapshot());
      var argv := NodeArgv(PathArg(ocBinaryPath), PathArg(kubeconfigPath));
      var n;
      n, res := Poll(NodeProbe, argv, host.nodeAttempts);
      log := log + Repeat(Run(argv), n);
    }

    /** The stability loop of `check_cluster_status`. */
    method WaitForStableCluster(host: Host) returns (res: PollResult)
      modifies this
      ensures Performed(WaitForStableClusterStep(host, old(Snapshot())))
      ensures OfPoll(res) == WaitForStableClusterStep(host, old(Snapshot())).end
    {
      // The loop passes `str(state[...])` of the same two entries on every attempt.
      unsetReads := unsetReads + ReadOf(OcBinaryPath, Snapshot()) + ReadOf(KubeconfigPath, Snapshot());
      var argv := StabilityArgv(PathArg(ocBinaryPath), PathArg(kubeconfigPath));
      var n;
      n, res := Poll(StabilityProbe, argv, host.stabilityAttempts);
      log := log + Repeat(Run(argv), n);
    }

    /** `check_cluster_status`: SSH, then the API server, then a stable cluster. */
    method CheckClusterStatus(host: Host) returns (res: PollResult)
      modifies this
      ensures Performed(CheckClusterStatusStep(host, old(Snapshot())))
      ensures OfPoll(res) == CheckClusterStatusStep(host, old(Snapshot())).end
    {
      res := WaitForSsh(host);
      ghost var ssh := WaitForSshStep(host, old(Snapshot()));
      if !res.Converged? {
        assert CheckClusterStatusStep(host, old(Snapshot())) == ssh;
        return;
      }
      res := WaitForApiServer(host);
      ghost var api := WaitForApiServerStep(host, old(Snapshot()));
      Regroup(old(log), ssh.log, api.log);
      Regroup(old(unsetReads), ssh.unsetReads, api.unsetReads);
      if !res.Converged? {
        assert CheckClusterStatusStep(host, old(Snapshot())) == Chain(ssh, api);
        return;
      }
      res := WaitForStableCluster(host);
      ghost var stable := WaitForStableClusterStep(host, api.state);
      Regroup4(old(log), ssh.log, api.log, stable.log);
      Regroup4(old(unsetReads), ssh.unsetReads, api.unsetReads, stable.unsetReads);
      assert CheckClusterStatusStep(host, old(Snapshot())) == Chain(ssh, Chain(api, stable));
    }

    /**
     * `ensure_dependencies`, `generate_ssh_keypair` and `load_resources`, called in turn once the stages before them all returned;
     * leaves at the first that raises, with `k` the number of stages entered.
     */
    method PrepareHost(config: Config, host: Host, ghost stages: seq<LaterStage>, ghost run: Runner, ghost s0: State,
                  ghost log0: seq<Action>, ghost reads0: seq<Field>, ghost done: Step)
      returns (o: Outcome, ghost next: Step, ghost k: nat)
      requires |stages| == 13 && stages[0] == Stage.EnsureDependencies && stages[1] == Stage.GenerateSshKeypair && stages[2] == Stage.LoadResources
      requires Going(stages, run, s0, done, 0)
      requires forall s :: run(Stage.EnsureDependencies, s) == SetupStep(host.dependencies, s)
      requires forall s :: run(Stage.GenerateSshKeypair, s) == GenerateSshKeypairStep(host, s)
      requires forall s :: run(Stage.LoadResources, s) == LoadResourcesStep(config, host, s)
      requires Snapshot() == done.state && log == log0 + done.log && unsetReads == reads0 + done.unsetReads
      modifies this
      ensures Snapshot() == next.state && log == log0 + next.log && unsetReads == reads0 + next.unsetReads
      ensures o.Done? ==> Going(stages, run, s0, next, 3) && k == 3
      ensures o.Raised? ==> next.end == Threw(o.error) && Stopped(stages, run, s0, next, k) && 0 < k <= 3
    {
      next := done;
      o := host.dependencies;
      next := Advanced(stages, run, s0, log0, reads0, next, 0, Stage.EnsureDependencies, run(Stage.EnsureDependencies, next.state));
      if o.Raised? {
        return o, next, 1;
      }
      o := GenerateSshKeypair(host);
      next := Advanced(stages, run, s0, log0, reads0, next, 1, Stage.GenerateSshKeypair, run(Stage.GenerateSshKeypair, next.state));
      if o.Raised? {
        return o, next, 2;
      }
      o := LoadResources(config, host);
      next := Advanced(stages, run, s0, log0, reads0, next, 2, Stage.LoadResources, run(Stage.LoadResources, next.state));
      if o.Raised? {
        return o, next, 3;
      }
      k := 3;
    }

    /**
     * `generate_cloud_init`, `extract_disk_image` and `extract_oc_binary`, called in turn once the stages before them all returned;
     * leaves at the first that raises, with `k` the number of stages entered.
     */
    method PrepareImage(config: Config, host: Host, ghost stages: seq<LaterStage>, ghost run: Runner, ghost s0: State,
                  ghost log0: seq<Action>, ghost reads0: seq<Field>, ghost done: Step)
      returns (o: Outcome, ghost next: Step, ghost k: nat)
      requires |stages| == 13 && stages[3] == Stage.GenerateCloudInit && stages[4] == Stage.ExtractDiskImage && stages[5] == Stage.ExtractOcBinary
      requires Going(stages, run, s0, done, 3)
      requires forall s :: run(Stage.GenerateCloudInit, s) == GenerateCloudInitStep(host, s)
      requires forall s :: run(Stage.ExtractDiskImage, s) == ExtractDiskImageStep(config, host, s)
      requires forall s :: run(Stage.ExtractOcBinary, s) == ExtractOcBinaryStep(config, host, s)
      requires Snapshot() == done.state && log == log0 + done.log && unsetReads == reads0 + done.unsetReads
      modifies this
      ensures Snapshot() == next.state && log == log0 + next.log && unsetReads == reads0 + next.unsetReads
      ensures o.Done? ==> Going(stages, run, s0, next, 6) && k == 6
      ensures o.Raised? ==> next.end == Threw(o.error) && Stopped(stages, run, s0, next, k) && 3 < k <= 6
    {
      next := done;
      GenerateCloudInit(host);
      next := Advanced(stages, run, s0, log0, reads0, next, 3, Stage.GenerateCloudInit, run(Stage.GenerateCloudInit, next.state));
      o := ExtractDiskImage(config, host);
      next := Advanced(stages, run, s0, log0, reads0, next, 4, Stage.ExtractDiskImage, run(Stage.ExtractDiskImage, next.state));
      if o.Raised? {
        return o, next, 5;
      }
      o := ExtractOcBinary(config, host);
      next := Advanced(stages, run, s0, log0, reads0, next, 5, Stage.ExtractOcBinary, run(Stage.ExtractOcBinary, next.state));
      if o.Raised? {
        return o, next, 6;
      }
      k := 6;
    }

    /**
     * `ensure_macadam_exists`, `ensure_gvproxy_exists` and `start_macadam_vm`, called in turn once the stages before them all returned;
     * leaves at the first that raises, with `k` the number of stages entered.
     */
    method LaunchVm(host: Host, ghost stages: seq<LaterStage>, ghost run: Runner, ghost s0: State,
                  ghost log0: seq<Action>, ghost reads0: seq<Field>, ghost done: Step)
      returns (o: Outcome, ghost next: Step, ghost k: nat)
      requires |stages| == 13 && stages[6] == Stage.EnsureMacadam && stages[7] == Stage.EnsureGvproxy && stages[8] == Stage.StartVm
      requires Going(stages, run, s0, done, 6)
      requires forall s :: run(Stage.EnsureMacadam, s) == SetupStep(host.macadamSetup, s)
      requires forall s :: run(Stage.EnsureGvproxy, s) == SetupStep(host.gvproxySetup, s)
      requires forall s :: run(Stage.StartVm, s) == StartMacadamVmStep(host, s)
      requires Snapshot() == done.state && log == log0 + done.log && unsetReads == reads0 + done.unsetReads
      modifies this
      ensures Snapshot() == next.state && log == log0 + next.log && unsetReads == reads0 + next.unsetReads
      ensures o.Done? ==> Going(stages, run, s0, next, 9) && k == 9
      ensures o.Raised? ==> next.end == Threw(o.error) && Stopped(stages, run, s0, next, k) && 6 < k <= 9
    {
      next := done;
      o := host.macadamSetup;
      next := Advanced(stages, run, s0, log0, reads0, next, 6, Stage.EnsureMacadam, run(Stage.EnsureMacadam, next.state));
      if o.Raised? {
        return o, next, 7;
      }
      o := host.gvproxySetup;
      next := Advanced(stages, run, s0, log0, reads0, next, 7, Stage.EnsureGvproxy, run(Stage.EnsureGvproxy, next.state));
      if o.Raised? {
        return o, next, 8;
      }
      o := StartMacadamVm(host);
      next := Advanced(stages, run, s0, log0, reads0, next, 8, Stage.StartVm, run(Stage.StartVm, next.state));
      if o.Raised? {
        return o, next, 9;
      }
      k := 9;
    }

    /**
     * `add_api_server_dns`, `forward_port_gvproxy` and `update_hosts_file`, called in turn once the stages before them all returned;
     * leaves at the first that raises, with `k` the number of stages entered.
     */
    method ExposeApiServer(host: Host, ghost stages: seq<LaterStage>, ghost run: Runner, ghost s0: State,
                  ghost log0: seq<Action>, ghost reads0: seq<Field>, ghost done: Step)
      returns (o: Outcome, ghost next: Step, ghost k: nat)
      requires |stages| == 13 && stages[9] == Stage.AddApiServerDns && stages[10] == Stage.ForwardPort && stages[11] == Stage.UpdateHostsFile
      requires Going(stages, run, s0, done, 9)
      requires forall s :: run(Stage.AddApiServerDns, s) == AddApiServerDnsStep(host, s)
      requires forall s :: run(Stage.ForwardPort, s) == ForwardPortGvproxyStep(host, s)
      requires forall s :: run(Stage.UpdateHostsFile, s) == UpdateHostsFileStep(host, s)
      requires Snapshot() == done.state && log == log0 + done.log && unsetReads == reads0 + done.unsetReads
      modifies this
      ensures Snapshot() == next.state && log == log0 + next.log && unsetReads == reads0 + next.unsetReads
      ensures o.Done? ==> Going(stages, run, s0, next, 12) && k == 12
      ensures o.Raised? ==> next.end == Threw(o.error) && Stopped(stages, run, s0, next, k) && 9 < k <= 12
    {
      next := done;
      o := AddApiServerDns(host);
      next := Advanced(stages, run, s0, log0, reads0, next, 9, Stage.AddApiServerDns, run(Stage.AddApiServerDns, next.state));
      if o.Raised? {
        return o, next, 10;
      }
      o := ForwardPortGvproxy(host);
      next := Advanced(stages, run, s0, log0, reads0, next, 10, Stage.ForwardPort, run(Stage.ForwardPort, next.state));
      if o.Raised? {
        return o, next, 11;
      }
      o := UpdateHostsFile(host);
      next := Advanced(stages, run, s0, log0, reads0, next, 11, Stage.UpdateHostsFile, run(Stage.UpdateHostsFile, next.state));
      if o.Raised? {
        return o, next, 12;
      }
      k := 12;
    }

    /**
     * The stages from `ensure_macadam_exists` on, once the six before them
     * all returned: the VM is launched, the API server exposed and the
     * cluster awaited. The result and everything done are those of the rest
     * of the run of `stages`.
     */
    method StartCluster(ghost config: Config, host: Host, ghost stages: seq<LaterStage>, ghost run: Runner, ghost s0: State,
                  ghost log0: seq<Action>, ghost reads0: seq<Field>, ghost done: Step)
      returns (r: RunResult, ghost entered: seq<LaterStage>, ghost did: Step)
      requires |stages| == 13 && stages[6] == Stage.EnsureMacadam && stages[7] == Stage.EnsureGvproxy && stages[8] == Stage.StartVm
      requires stages[9] == Stage.AddApiServerDns && stages[10] == Stage.ForwardPort && stages[11] == Stage.UpdateHostsFile
      requires stages[12] == Stage.CheckClusterStatus
      requires Going(stages, run, s0, done, 6)
      requires forall s :: run(Stage.EnsureMacadam, s) == SetupStep(host.macadamSetup, s)
      requires forall s :: run(Stage.EnsureGvproxy, s) == SetupStep(host.gvproxySetup, s)
      requires forall s :: run(Stage.StartVm, s) == StartMacadamVmStep(host, s)
      requires forall s :: run(Stage.AddApiServerDns, s) == AddApiServerDnsStep(host, s)
      requires forall s :: run(Stage.ForwardPort, s) == ForwardPortGvproxyStep(host, s)
      requires forall s :: run(Stage.UpdateHostsFile, s) == UpdateHostsFileStep(host, s)
      requires forall s :: run(Stage.CheckClusterStatus, s) == CheckClusterStatusStep(host, s)
      requires Snapshot() == done.state && log == log0 + done.log && unsetReads == reads0 + done.unsetReads
      modifies this
      ensures Snapshot() == did.state && log == log0 + did.log && unsetReads == reads0 + did.unsetReads
      ensures r == ResultOf(did.end) && RunStages(stages, run, s0) == Trace(did, entered)
    {
      var o;
      ghost var k;
      o, did, k := LaunchVm(host, stages, run, s0, log0, reads0, done);
      if o.Raised? {
        return Finished(ReportFor(o.error)), stages[..k], did;
      }
      o, did, k := ExposeApiServer(host, stages, run, s0, log0, reads0, did);
      if o.Raised? {
        return Finished(ReportFor(o.error)), stages[..k], did;
      }
      r, entered, did := AwaitCluster(host, stages, run, s0, log0, reads0, did);
    }

    /**
     * `check_cluster_status`, the last stage, once all before it returned;
     * `main` reports success only if its loops all converged.
     */
    method AwaitCluster(host: Host, ghost stages: seq<LaterStage>, ghost run: Runner, ghost s0: State,
                  ghost log0: seq<Action>, ghost reads0: seq<Field>, ghost done: Step)
      returns (r: RunResult, ghost entered: seq<LaterStage>, ghost did: Step)
      requires |stages| == 13 && stages[12] == Stage.CheckClusterStatus
      requires Going(stages, run, s0, done, 12)
      requires forall s :: run(Stage.CheckClusterStatus, s) == CheckClusterStatusStep(host, s)
      requires Snapshot() == done.state && log == log0 + done.log && unsetReads == reads0 + done.unsetReads
      modifies this
      ensures Snapshot() == did.state && log == log0 + did.log && unsetReads == reads0 + did.unsetReads
      ensures r == ResultOf(did.end) && RunStages(stages, run, s0) == Trace(did, entered)
    {
      var res := CheckClusterStatus(host);
      did := Advanced(stages, run, s0, log0, reads0, done, 12, Stage.CheckClusterStatus, run(Stage.CheckClusterStatus, done.state));
      match res
      case PollRaised(e) => return Finished(ReportFor(e)), stages[..13], did;
      case StillPolling => return Polling, stages[..13], did;
      case Converged =>
      RanToEnd(stages, run, s0, did);
      return Finished(Success), stages, did;
    }

    /**
     * Everything `main` calls after the configuration is loaded, in source
     * order, leaving at the first stage that does not return; its exception
     * is turned into the report of the matching `except` clause. The result,
     * the stages entered and everything done are those of running `stages`,
     * which lists them in that order, with `run` performing each.
     */
    method Provision(config: Config, host: Host, ghost stages: seq<LaterStage>, ghost run: Runner)
      returns (r: RunResult, ghost entered: seq<LaterStage>, ghost did: Step)
      requires MainOrder(stages)
      requires forall s :: run(Stage.EnsureDependencies, s) == SetupStep(host.dependencies, s)
      requires forall s :: run(Stage.GenerateSshKeypair, s) == GenerateSshKeypairStep(host, s)
      requires forall s :: run(Stage.LoadResources, s) == LoadResourcesStep(config, host, s)
      requires forall s :: run(Stage.GenerateCloudInit, s) == GenerateCloudInitStep(host, s)
      requires forall s :: run(Stage.ExtractDiskImage, s) == ExtractDiskImageStep(config, host, s)
      requires forall s :: run(Stage.ExtractOcBinary, s) == ExtractOcBinaryStep(config, host, s)
      requires forall s :: run(Stage.EnsureMacadam, s) == SetupStep(host.macadamSetup, s)
      requires forall s :: run(Stage.EnsureGvproxy, s) == SetupStep(host.gvproxySetup, s)
      requires forall s :: run(Stage.StartVm, s) == StartMacadamVmStep(host, s)
      requires forall s :: run(Stage.AddApiServerDns, s) == AddApiServerDnsStep(host, s)
      requires forall s :: run(Stage.ForwardPort, s) == ForwardPortGvproxyStep(host, s)
      requires forall s :: run(Stage.UpdateHostsFile, s) == UpdateHostsFileStep(host, s)
      requires forall s :: run(Stage.CheckClusterStatus, s) == CheckClusterStatusStep(host, s)
      modifies this
      ensures Performed(did) && r == ResultOf(did.end)
      ensures RunStages(stages, run, old(Snapshot())) == Trace(did, entered)
    {
      ghost var s0 := Snapshot();
      did := ReachedStart(stages, run, s0);
      assert old(log) + did.log == old(log) && old(unsetReads) + did.unsetReads == old(unsetReads);
      var o;
      ghost var k;
      o, did, k := PrepareHost(config, host, stages, run, s0, old(log), old(unsetReads), did);
      if o.Raised? {
        return Finished(ReportFor(o.error)), stages[..k], did;
      }
      o, did, k := PrepareImage(config, host, stages, run, s0, old(log), old(unsetReads), did);
      if o.Raised? {
        return Finished(ReportFor(o.error)), stages[..k], did;
      }
      r, entered, did := StartCluster(config, host, stages, run, s0, old(log), old(unsetReads), did);
    }

    /**
     * `main`'s `try` block: load the configuration, then run every later
     * stage. The result, the stages entered and everything done are those
     * of `Main`: on a configuration error nothing else happens.
     */
    method RunPipeline(host: Host) returns (r: RunResult, ghost entered: seq<Stage>)
      modifies this
      ensures var t := Main(host, old(Snapshot()));
        r == ResultOf(t.step.end) && entered == t.entered && Performed(t.step)
    {
      var loaded := LoadConfigFromEnv(host.env, host.home, host.existing);
      if loaded.Err? {
        return Finished(ReportFor(loaded.error)), [LoadConfig];
      }
      AfterConfigInMainOrder();
      RunnerPerformsStages(loaded.value, host);
      ghost var later, did;
      r, later, did := Provision(loaded.value, host, AfterConfig, StageRunner(loaded.value, host));
      entered := [LoadConfig] + later;
    }
  }

  /**
   * `main`: a fresh `state` dictionary, then the `try` block. It returns
   * what `Main` describes from the initial record, having launched and
   * posted exactly what `Main` logs, and reports success exactly when the
   * configuration loads and every stage after it cooperates.
   */
  method RunMain(host: Host) returns (r: RunResult, ghost entered: seq<Stage>, ghost log: seq<Action>)
    ensures var t := Main(host, InitialState);
      r == ResultOf(t.step.end) && entered == t.entered && log == t.step.log
    ensures r == Finished(Success) <==> Cooperative(host)
    ensures r == Finished(Success) ==> entered == PipelineOrder
  {
    var session := new Session();
    r, entered := session.RunPipeline(host);
    log := session.log;
    MainSucceedsIff(host, InitialState);
  }
}
