# CRC bundle test pipeline and resource-tuning webhook, modelled in Dafny

This project models two parts of the CRC single-node OpenShift tooling.

1. **The macadam bundle-test driver** (`run-with-macadam.py`). It reads its
   configuration from the environment and generates an SSH keypair. It
   extracts the VM disk image and the `oc` client from the CRC bundle, then
   initialises and starts a VM with `macadam`. Next it registers two DNS zones
   and one port forward with gvproxy over its Unix control socket. Finally it
   polls until SSH answers, the guest's kubeconfig exists (it is then copied
   to the host), the node reports `Ready` and the cluster is stable.
2. **The mutating admission webhook** (`k8s-webhook-main-container/main.go`).
   For pods in the OpenShift namespaces it accepts, it answers with an
   RFC 6902 JSON Patch. The patch lowers every non-zero resource request to a
   fixed minimum ("replace", section 4.3 of RFC 6902) and drops every
   non-zero limit ("remove", section 4.2).

Layout, one module per file:

- `text.dfy`: `Optional`, and `Text`, which gives the Python and Go string
  functions the source calls (`startswith`, `in`, `strip`, `lower`,
  `' '.join`, `%d`).
- `commands.dfy`: `Commands`, holding the exception taxonomy, `run_command`
  and how `main` maps an escaping exception to its diagnostic and exit code.
- `config.dfy`: `MacadamConfig`, holding `Config` and `load_config_from_env`.
- `bundle.dfy`: `BundlePaths`, holding `Path.stem`, the ".tar" stripping and
  the tar member path.
- `discovery.dfy`: `GvproxyDiscovery`, holding the regex search of the
  `pgrep` listing for the socket path and the SSH port.
- `readiness.dfy`: `Readiness`, holding the four loop-exit predicates and one
  verified polling loop, `Poll`.
- `stages.dfy`: `Stages`. Each stage of `main` as a function from the
  machine's answers and the `state` record to a `Step`: the record it leaves,
  the commands and requests it issues in order, the entries it reads while
  unset, and how it ends. `Main` runs them in source order and stops at the
  first stage that does not return.
- `runs.dfy`: `Runs`, the properties of `main` as a whole: where a run stops,
  what it may have issued by then, when it succeeds, and that no entry is
  read before it is recorded.
- `pipeline.dfy`: `Pipeline`. The module-level `state` dict becomes the class
  `Session`, each stage is a method on it proved to do exactly what its
  `Stages` function describes, `RunPipeline` is `main`, and `RunMain` runs
  it on a fresh session.
- `webhook.dfy`: `Webhook`, holding `allowedNameSpace`, the patch building
  and `mutate`.

External effects are inputs. A launched command is an `Invocation`: it
completed with a status and its output, its executable was not found,
`subprocess.run` raised some other error, or the operator interrupted it. An
HTTP reply from gvproxy is an `HttpReply`. All of them, together with the
environment, the existing files and the sizes of written files, are fields of
one `Host` value. Each endless `while True` loop is fed a finite attempt
sequence. When that sequence runs out before the loop's test passes, the loop
ends as `StillPolling` and `main` ends as `Polling`. `Session` has two ghost
fields. `log` records every command launched and every request posted, in
order. `unsetReads` records every state entry that was read while it still
held `None`.

Facts of the code that the model keeps:

- `add_api_server_dns` posts the zone "crc.testing." and then the zone
  "apps-crc.testing." (run-with-macadam.py:449-460); the second is posted
  only when the first returned status 200.
- `main` returns 1 from each of its three `except` clauses
  (run-with-macadam.py:596-604). Only the diagnostic line tells a pipeline
  error, an interrupt and any other exception apart.
- `update_hosts_file` runs its command with `check=True`
  (run-with-macadam.py:473-484). A non-zero status therefore raises inside
  `run_command`, and the function's own status test never fires.
  `Stages.UpdateHostsFileStepSpec` states this.
- The kubeconfig probe tests for `/opt/crc/kubeconfig`, while `scp` copies
  `/opt/kubeconfig` (run-with-macadam.py:428, 509).

## Model

| member | source | states |
|---|---|---|
| `Commands.RunCommand` | run-with-macadam.py:47-69 | the command's result is returned iff it completed and, under `check`, exited 0; a failed check and a missing executable both become `MacadamError` ("Command not found: argv[0]" for the latter); any other error of `subprocess.run` and an interrupt pass through unchanged |
| `Commands.ExitCode` | run-with-macadam.py:594-604 | `main` returns 0 or 1, and 0 exactly on success |
| `Commands.ReportForSpec` | run-with-macadam.py:596-604 | every exception reaching `main` yields exit code 1; a `MacadamError` (also a `DependencyError` or `VMError`) prints "Error: …", an interrupt prints "Interrupted by user.", and any other exception prints "Unexpected error: …" |
| `Commands.ReportsDistinguishKinds` | run-with-macadam.py:596-604 | for any three exceptions, one per `except` clause, the three diagnostics are pairwise different |
| `MacadamConfig.LoadConfigFromEnvSpec` | run-with-macadam.py:71-91 | loading fails, always with `MacadamError`, iff PULL_SECRET_PATH is unset, empty or names no existing file; otherwise each password and the bundle path is the environment's value or its default ("P@ssd3v3loper", "P@sskub3admin", ~/Downloads/crc_vfkit_4.19.3_arm64.crcbundle), and `vm_name` is "crc-ng" |
| `MacadamConfig.EmptyPullSecretPathIsUnset` | run-with-macadam.py:72-74 | an empty PULL_SECRET_PATH behaves exactly like an unset one |
| `MacadamConfig.DefaultBundleMember` | run-with-macadam.py:80-83 | the default bundle unpacks from the archive directory "crc_vfkit_4.19.3_arm64" (member "crc_vfkit_4.19.3_arm64/crc.qcow2") |
| `BundlePaths.TarMemberSplits` | run-with-macadam.py:233-237 | the tar member path is the bundle stem, then "/", then the requested file; the stem holds no "/", so splitting the member at its first "/" gives back stem and file |
| `BundlePaths.BundleStemHasNoSlash` | run-with-macadam.py:233-235 | the stem is part of one path component |
| `BundlePaths.StemOfTarBundle` | run-with-macadam.py:233-235 | for `dir/base.tar.ext` the stem is `base`: only the last suffix and then one ".tar" are removed |
| `BundlePaths.StemOfPlainBundle` | run-with-macadam.py:233-235 | for `dir/base.ext` with `base` not ending in ".tar", the stem is `base` |
| `GvproxyDiscovery.SearchSound` | run-with-macadam.py:397-401 | the search fails iff the pattern matches nowhere; otherwise it returns the group of the leftmost match, a maximal run of the pattern's character class |
| `GvproxyDiscovery.SearchComplete` | run-with-macadam.py:397-401 | whatever is the leftmost-longest group is what the search returns, the converse of `SearchSound` |
| `GvproxyDiscovery.GetGvproxySocketPathSpec` | run-with-macadam.py:390-401 | a failing or missing `pgrep` raises "The gvproxy process is not running."; a listing without "-services unix://" raises "Could not find the gvproxy socket path."; otherwise the result is the maximal non-space run after the flag in the stripped listing |
| `GvproxyDiscovery.GetSshPortSpec` | run-with-macadam.py:403-414 | the same for the maximal digit run after "-ssh-port ", with its own error message |
| `GvproxyDiscovery.SocketPathRoundTrip` | run-with-macadam.py:396-401 | a listing `pre + "-services unix://" + path + rest` yields `path` back |
| `GvproxyDiscovery.SshPortRoundTrip` | run-with-macadam.py:409-414 | a listing `pre + "-ssh-port " + port + rest` yields `port` back |
| `Readiness.Poll` | run-with-macadam.py:489-501 | one polling loop issues exactly the attempts up to and including the first that raises or passes the test, and every earlier attempt completed unready |
| `Readiness.LoopEndSpec` | run-with-macadam.py:489-501 | a loop keeps polling iff every attempt completed unready; it converges only on a ready attempt; it can raise only an interrupt, a missing executable or another error of `subprocess.run`, never a failed status |
| `Readiness.StopsAtFirstReady` | run-with-macadam.py:489-501 | after n unready attempts and then a ready one, the loop stops at attempt n+1 whatever follows |
| `Readiness.SentinelReadyIffContains` | run-with-macadam.py:496 | an attempt passes the SSH, kubeconfig or node test iff its stdout contains "SSH_READY", "KUBECONFIG_READY" or "Ready" |
| `Readiness.StabilityReadyIff` | run-with-macadam.py:565-570 | the stability test passes iff stdout+stderr is non-blank after stripping and does not contain "progressing" in lower case |
| `Readiness.ProgressingBlocksStability` | run-with-macadam.py:567 | "progressing" in any letter case anywhere in stdout or stderr keeps the stability loop polling |
| `Readiness.NotReadyPassesNodeProbe` | run-with-macadam.py:532 | a node listed as "NotReady" also passes the node test, which is a substring test |
| `Stages.PostOutcome` | run-with-macadam.py:383-386 | a gvproxy request succeeds iff the reply is status 200 |
| `Stages.PostOutcomeSpec` | run-with-macadam.py:383-388 | any other status raises a `MacadamError` that names the endpoint and the status, different statuses give different diagnostics, and a failed connection or an interrupt propagates unchanged |
| `Stages.GenerateSshKeypairStepSpec` | run-with-macadam.py:148-166 | `ssh-keygen` is launched once for `id_rsa_temp` in the working directory; both key paths are recorded iff it succeeds, and nothing changes otherwise; a failed status or missing executable raises "Failed to generate SSH keypair.", while an interrupt or other launch error passes through |
| `Stages.LoadResourcesStepSpec` | run-with-macadam.py:168-181 | a missing pull secret raises first; the public-key entry is read only after that check; a missing public key raises naming its path; on success both texts are stored stripped, and on failure nothing changes |
| `Stages.ExtractDiskImageStepSpec` | run-with-macadam.py:226-251 | a missing bundle raises before any command; otherwise `tar` extracts `<stem>/crc.qcow2` once; the disk-image path is recorded whenever `tar` succeeded, before the emptiness check, so an empty image raises with the path set |
| `Stages.ExtractOcBinaryStepSpec` | run-with-macadam.py:253-281 | the same for `<stem>/oc`; `chmod +x` is launched only on a non-empty binary, and the stage returns iff every step succeeded |
| `Stages.StartMacadamVmStepSpec` | run-with-macadam.py:339-359 | the disk-image, private-key and user-data entries are read; a failing `macadam init` raises `VMError` and `macadam start` is never launched; after a successful init, `start` is launched and any exit status of it lets the stage return; the state never changes |
| `Stages.GvproxyPostStepSpec` | run-with-macadam.py:370-388 | an unset or empty socket path raises "gvproxy socket path not set." and posts nothing; otherwise exactly one request is posted and the stage returns iff the reply is status 200 |
| `Stages.AddApiServerDnsStepSpec` | run-with-macadam.py:439-460 | the socket path is discovered with `pgrep` and recorded before any post; a failed discovery posts nothing and raises its error; "crc.testing." is posted first and "apps-crc.testing." only after a 200; the stage returns iff both replies are 200 |
| `Stages.UpdateHostsFileStepSpec` | run-with-macadam.py:473-484 | the hosts-file command is launched once and the stage raises exactly what `run_command` raised; its own "unable to add api.crc.testing entry to hosts file" error is never raised |
| `Stages.CopyKubeconfigFromVmStepSpec` | run-with-macadam.py:416-437 | `pgrep` runs first and a failed discovery raises with nothing else done; the private-key entry is read only after the port is known; `scp` runs once with that port; the kubeconfig path is recorded iff `scp` succeeded, before its size is checked |
| `Stages.PollStepSpec` | run-with-macadam.py:486-501 | a polling loop changes no entry, launches its command once per attempt up to and including the stopping one, lets the stage go on iff it met a ready attempt (the last launched), and keeps waiting iff every attempt completed unready |
| `Stages.NodeLoopStepSpec` | run-with-macadam.py:520-537 | the `oc get node` loop reads the `oc` and kubeconfig entries and goes on iff it converges |
| `Stages.WaitForApiServerStepSpec` | run-with-macadam.py:503-537 | while the kubeconfig loop has not converged nothing else runs and the wait ends as that loop ends; the copy then runs exactly once; a copy that raised ends the wait with its exception and no `oc get node`; after a copy that returned the node loop runs and the wait ends as it ends; the wait returns iff both loops converge and the copy returns, with the kubeconfig path recorded |
| `Stages.CopyFailureSkipsNodeQuery` | run-with-macadam.py:503-537 | when the copy fails, the wait for the API server launches only the kubeconfig probes and the copy's own commands, never `oc get node`, and raises the copy's exception |
| `Stages.CheckClusterStatusStepSpec` | run-with-macadam.py:539-573 | the SSH wait, the API-server wait and the stability loop run in that order, each only after the previous returned; the first that does not return ends the stage with nothing after it launched; the stage returns iff all three converge |
| `Stages.RunnerPerformsStages` | run-with-macadam.py:577-591 | each stage after the configuration is performed by its own stage function |
| `Pipeline.Session.constructor` | run-with-macadam.py:26-36 | the session starts with every path entry unset, both texts empty, and nothing launched or read |
| `Pipeline.Session.GenerateSshKeypair` | run-with-macadam.py:148-166 | does exactly what `GenerateSshKeypairStep` describes: new state, appended log and unset reads, and the outcome |
| `Pipeline.Session.LoadResources` | run-with-macadam.py:168-181 | does exactly what `LoadResourcesStep` describes |
| `Pipeline.Session.GenerateCloudInit` | run-with-macadam.py:183-224 | does exactly what `GenerateCloudInitStep` describes: records the user-data path, and always returns |
| `Pipeline.Session.ExtractDiskImage` | run-with-macadam.py:226-251 | does exactly what `ExtractDiskImageStep` describes |
| `Pipeline.Session.ExtractOcBinary` | run-with-macadam.py:253-281 | does exactly what `ExtractOcBinaryStep` describes |
| `Pipeline.Session.StartMacadamVm` | run-with-macadam.py:339-359 | does exactly what `StartMacadamVmStep` describes |
| `Pipeline.Session.GvproxyPost` | run-with-macadam.py:370-388 | does exactly what `GvproxyPostStep` describes |
| `Pipeline.Session.AddApiServerDns` | run-with-macadam.py:439-460 | does exactly what `AddApiServerDnsStep` describes |
| `Pipeline.Session.ForwardPortGvproxy` | run-with-macadam.py:462-471 | does exactly what `ForwardPortGvproxyStep` describes: one post forwarding 127.0.0.1:6443 to 192.168.127.2:6443 over tcp |
| `Pipeline.Session.UpdateHostsFile` | run-with-macadam.py:473-484 | does exactly what `UpdateHostsFileStep` describes |
| `Pipeline.Session.CopyKubeconfigFromVm` | run-with-macadam.py:416-437 | does exactly what `CopyKubeconfigFromVmStep` describes |
| `Pipeline.Session.Polled` | run-with-macadam.py:486-501 | one polling loop performed in place does exactly what `PollStep` describes |
| `Pipeline.Session.WaitForSsh` | run-with-macadam.py:486-501 | does exactly what `WaitForSshStep` describes |
| `Pipeline.Session.WaitForNode` | run-with-macadam.py:520-537 | does exactly what `NodeLoopStep` describes |
| `Pipeline.Session.WaitForApiServer` | run-with-macadam.py:503-537 | does exactly what `WaitForApiServerStep` describes, whose log and ending `Stages.WaitForApiServerStepSpec` gives |
| `Pipeline.Session.WaitForStableCluster` | run-with-macadam.py:553-573 | does exactly what `WaitForStableClusterStep` describes |
| `Pipeline.Session.CheckClusterStatus` | run-with-macadam.py:539-573 | does exactly what `CheckClusterStatusStep` describes, whose log and ending `Stages.CheckClusterStatusStepSpec` gives |
| `Pipeline.Session.PrepareHost` | run-with-macadam.py:579-581 | the first three stages run in order until one raises: either all returned and the run reached stage 3, or the run of `main` ends exactly at the stage that raised, with the log, reads and state so far |
| `Pipeline.Session.PrepareImage` | run-with-macadam.py:582-584 | the same for the cloud-init and extraction stages |
| `Pipeline.Session.LaunchVm` | run-with-macadam.py:585-587 | the same for the two setup stages and `start_macadam_vm` |
| `Pipeline.Session.ExposeApiServer` | run-with-macadam.py:588-590 | the same for the DNS, forward and hosts-file stages |
| `Pipeline.Session.AwaitCluster` | run-with-macadam.py:591 | the cluster check is the last stage: its ending is the run's ending, and the run enters every stage |
| `Pipeline.Session.StartCluster` | run-with-macadam.py:585-591 | from the macadam setup on, the log, reads, state, entered stages and result are those of the run of the stages in source order |
| `Pipeline.Session.Provision` | run-with-macadam.py:579-591 | the stages after the configuration, performed in place, give exactly the run of those stages: its log, reads, state, entered stages and result |
| `Pipeline.Session.RunPipeline` | run-with-macadam.py:575-604 | `main` performed in place: its result, the stages it entered and its new state, log and reads are exactly those of `Main` |
| `Pipeline.RunMain` | run-with-macadam.py:575-604 | on a fresh session, the result, entered stages and log are those of `Main`; it succeeds iff the machine lets every stage return, and then it entered every stage |
| `Runs.MainShape` | run-with-macadam.py:575-604 | `main` enters the configuration and then a prefix of the stages in source order; a configuration error ends it with nothing done; every stage entered before the last returned and the run ends as the last entered stage ended; it returns, or is still waiting, only after entering every stage |
| `Runs.MainSucceedsIff` | run-with-macadam.py:575-594 | `main` succeeds iff the configuration loads and the machine lets every stage return; it then entered every stage and left every path entry set |
| `Runs.ConfigErrorLaunchesNothing` | run-with-macadam.py:576-577 | a configuration error launches nothing, enters no other stage, and is reported by its `except` clause |
| `Runs.WrittenBeforeRead` | run-with-macadam.py:575-591 | no stage ever reads a path entry while it is still unset: no "None" is passed on |
| `Runs.MainActions` | run-with-macadam.py:575-591 | every request posted is one of the two DNS zones or the port forward, and each only once its stage was entered; the hosts file is updated only by `update_hosts_file` |
| `Runs.DnsDiscoveryFailureSkipsForward` | run-with-macadam.py:439-471 | when gvproxy cannot be found at the DNS stage, the port is never forwarded, the hosts file never touched, and `main` reports a failure |
| `Runs.VmInitFailureStopsBeforeNetwork` | run-with-macadam.py:339-359 | when `macadam init` fails, nothing is ever posted to gvproxy, the hosts file is never touched, and `main` reports a failure |
| `Runs.VmInitFailureReport` | run-with-macadam.py:575-598 | when every earlier stage returned and `macadam init` fails, `main` entered exactly the stages up to `start_macadam_vm`, and a failed status or missing executable is reported as "Error: Failed to initialize VM with macadam." |
| `Runs.AfterConfigReturnsIff` | run-with-macadam.py:579-591 | any runner whose stages read only recorded entries returns exactly when every stage is allowed to return |
| `Runs.AfterConfigCompletes` | run-with-macadam.py:579-594 | a run of the stages after the configuration that returns entered all of them and left every path entry set |
| `Runs.AfterConfigNeedsMet` | run-with-macadam.py:579-591 | every stage reads only entries recorded by an earlier stage |
| `Runs.AfterConfigSetsAll` | run-with-macadam.py:579-591 | together the stages record every path entry of `state` |
| `Runs.RunStagesShape` | run-with-macadam.py:575-591 | running stages in order enters a prefix of them, every stage but the last entered returned, and the run ends as the last entered stage ended |
| `Runs.RunnerRespects` | run-with-macadam.py:577-591 | each stage reads and records only its own entries, issues only its own actions, and returns exactly when the machine's answers allow |
| `Webhook.AllowedUnderOpenshift` | tuning-crc-openshift-cluster/mutating-k8s-webhook/src/k8s-webhook-main-container/main.go:63-74 | under "openshift-", a namespace is mutated iff the rest starts with none of "kube-apiserver", "kube-controller-manager", "kube-scheduler", "etcd" |
| `Webhook.NotAllowedOutsideOpenshift` | tuning-crc-openshift-cluster/mutating-k8s-webhook/src/k8s-webhook-main-container/main.go:63-74 | a namespace outside "openshift-", or under one of the four control-plane prefixes, is never mutated |
| `Webhook.PatchObject` | tuning-crc-openshift-cluster/mutating-k8s-webhook/src/k8s-webhook-main-container/main.go:112-155 | a request operation is "replace" with a value, a limit operation is "remove" without one, and both carry the JSON pointer of their target |
| `Webhook.AppendContainerPatches` | tuning-crc-openshift-cluster/mutating-k8s-webhook/src/k8s-webhook-main-container/main.go:106-159 | one loop iteration appends this container's operations and reports whether it appended any |
| `Webhook.Mutate` | tuning-crc-openshift-cluster/mutating-k8s-webhook/src/k8s-webhook-main-container/main.go:76-178 | an unreadable review, a pod that does not unmarshal, a nil request, or a `null` pod in an allowed namespace yields no response; a `null` pod elsewhere is answered with no patch; otherwise the response is allowed, echoes the UID, reports "Success", declares a JSON Patch with the audit annotation, and carries a patch iff the namespace is allowed and the list is non-empty, and then the whole list |
| `Webhook.ContainerPatchesShape` | tuning-crc-openshift-cluster/mutating-k8s-webhook/src/k8s-webhook-main-container/main.go:111-155 | one container contributes one operation per non-zero quantity, in the order memory request, CPU request, memory limit, CPU limit |
| `Webhook.ContainerPatchesMembership` | tuning-crc-openshift-cluster/mutating-k8s-webhook/src/k8s-webhook-main-container/main.go:111-155 | an operation is emitted for a container iff its guarding quantity is non-zero |
| `Webhook.PodPatchesCount` | tuning-crc-openshift-cluster/mutating-k8s-webhook/src/k8s-webhook-main-container/main.go:105-160 | the patch length is the number of non-zero requests and limits across the pod, at most 4 per container |
| `Webhook.PodPatchesOrdered` | tuning-crc-openshift-cluster/mutating-k8s-webhook/src/k8s-webhook-main-container/main.go:106-155 | operations appear by container index, then in the fixed per-container order, so each slot appears at most once |
| `Webhook.PodPatchesMembership` | tuning-crc-openshift-cluster/mutating-k8s-webhook/src/k8s-webhook-main-container/main.go:106-155 | an operation is in the patch iff it targets an existing container whose guarding quantity is non-zero and, for a replace, carries the minimum for its resource |
| `Webhook.PodPatchesIgnoreNamespace` | tuning-crc-openshift-cluster/mutating-k8s-webhook/src/k8s-webhook-main-container/main.go:180-188 | the patch does not depend on which allowed namespace the pod is in |
| `Webhook.ReplacementValues` | tuning-crc-openshift-cluster/mutating-k8s-webhook/src/k8s-webhook-main-container/main.go:108-109 | every replacement sets memory to "10Mi" and CPU to "10m" |
| `Webhook.PathInjective` | tuning-crc-openshift-cluster/mutating-k8s-webhook/src/k8s-webhook-main-container/main.go:117-153 | two operations share a JSON pointer iff they target the same container, section and resource |
| `Webhook.PodPatchPathsDistinct` | tuning-crc-openshift-cluster/mutating-k8s-webhook/src/k8s-webhook-main-container/main.go:106-155 | no two operations of a patch target the same JSON pointer |

## Left out

- `ensure_dependencies`, `ensure_macadam_exists` and `ensure_gvproxy_exists` install packages, download binaries, create a symlink and edit `PATH`. Each is reduced to the `Outcome` the host supplies (returned normally or raised).
- `generate_cloud_init` renders a text template. Only the state entry it sets (the user-data path) is modelled. The `update_hosts_file` command is kept as its fixed argv.
- The `time.sleep` calls (including the 180-second settle) and all wall-clock behaviour are left out, together with every `print` to the console. Loops are modelled by attempt count. An interrupt is modelled only where a command or an HTTP exchange is under way, not during a sleep.
- `UnixStreamHTTPConnection`, the JSON encoding of request bodies, and the socket connect are transport. A POST is reduced to the `HttpReply` the host supplies.
- The contents of the pull-secret and public-key files are host inputs. File existence is a set of paths, and the size of a freshly written file is a number (0 also stands for missing).
- `Path` normalisation (collapsing "//", trailing "/", "." components) is not modelled. Paths are plain strings, and `Path.cwd() / name` is `cwd + "/" + name`.
- `GvproxyDiscovery.GetSshPortSpec`: `\d` is limited to ASCII digits, whereas Python's `re` on `str` also accepts other Unicode decimal digits.
- `Readiness.StabilityReadyIff`: `str.lower()` is modelled for ASCII letters only. No non-ASCII character lowers to a letter of "progressing", so the verdict is the same.
- The webhook server (`main`, `handleRoot`, `handleMutate`, `sendError`), the JSON (un)marshalling library and `resource.Quantity` formatting are left out. A quantity is reduced to whether it prints as "0".
- `Webhook.Mutate`: a review whose `Request` is nil, or a `null` pod in an allowed namespace, makes the Go code dereference nil and panic. The model returns the failures `NilRequest` and `NilPod` instead of inventing a response. A failure of the final `json.Marshal` of the review is not modelled.
- The webhook init container (RSA key and certificate generation, PEM files, Kubernetes client calls) is crypto and foreign API code, and is not part of this model.
- `systemd/crc-test-vsock.py` is a vsock device wait and one socket connect, and is not part of this model.
- Behaviour when several gvproxy processes are listed by `pgrep` is whatever the leftmost match in the whole listing gives. This is what the code does; the model does not say which process that is.
- A polling loop that builds its command from `state` (`oc get node`, the stability check) reads those entries once, when the loop starts, rather than on every attempt. No stage changes them while the loop runs, so every attempt launches the same command.
- `PrepareHost`, `PrepareImage`, `LaunchVm`, `ExposeApiServer`, `StartCluster`, `AwaitCluster` and `Provision` have no counterpart in the code. They group the calls of `main` only so that each proof stays small; together they call the stages in the order of run-with-macadam.py:579-591.
