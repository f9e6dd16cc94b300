/**
 * The four polling loops of run-with-macadam.py: `wait_for_ssh`, the two
 * loops of `wait_for_api_server` and the stability loop of
 * `check_cluster_status`. Each runs one command per attempt with
 * `check=False` and stops on the first attempt whose output satisfies the
 * loop's predicate; the sleeps between attempts are left out, and the
 * endless `while True` is fed a finite sequence of attempts.
 */
module Readiness {
  import opened Optional
  import opened Text
  import opened Commands

  /** The four loops. */
  datatype Probe = SshProbe | KubeconfigProbe | NodeProbe | StabilityProbe

  const SshSentinel := "SSH_READY"
  const KubeconfigSentinel := "KUBECONFIG_READY"
  const NodeSentinel := "Ready"
  const ProgressingWord := "progressing"

  /** The word the first three loops look for in standard output. */
  function Sentinel(p: Probe): (w: string)
    requires !p.StabilityProbe?
    ensures w != []
  {
    match p
    case SshProbe => SshSentinel
    case KubeconfigProbe => KubeconfigSentinel
    case NodeProbe => NodeSentinel
  }

  /** `macadam ssh crc-ng -- echo SSH_READY`. */
  const SshArgv: seq<string> := ["macadam", "ssh", "crc-ng", "--", "echo", "SSH_READY"]

  /** The guest-side test for `/opt/crc/kubeconfig`. */
  const KubeconfigArgv: seq<string> :=
    ["macadam", "ssh", "crc-ng", "--", "[ -f /opt/crc/kubeconfig ] && echo KUBECONFIG_READY"]

  /** `oc get node` against the copied kubeconfig; `oc` and `kubeconfig` are the `str()` of the state paths. */
  function NodeArgv(oc: string, kubeconfig: string): (argv: seq<string>)
    ensures argv != [] && argv[0] == oc
  {
    [oc, "get", "node", "--kubeconfig", kubeconfig, "--context", "admin"]
  }

  /** `oc adm wait-for-stable-cluster` with a one-minute stable period and a ten-minute timeout. */
  function StabilityArgv(oc: string, kubeconfig: string): (argv: seq<string>)
    ensures argv != [] && argv[0] == oc
  {
    [oc, "adm", "wait-for-stable-cluster", "--minimum-stable-period=1m", "--timeout=10m",
     "--kubeconfig", kubeconfig, "--context", "admin"]
  }

  /**
   * The exit test of each loop, applied to a completed command: a non-empty
   * standard output holding the sentinel, or, for stability, a non-empty
   * combined output that is not blank and does not mention "progressing" in
   * any letter case. The exit status is never consulted.
   */
  predicate Ready(p: Probe, c: Completed) {
    match p
    case StabilityProbe =>
      && (c.stdout != "" || c.stderr != "")
      && !Contains(ToLower(c.stdout + c.stderr), ProgressingWord)
      && |Strip(c.stdout + c.stderr)| > 0
    case _ => c.stdout != "" && Contains(c.stdout, Sentinel(p))
  }

  /** An attempt ends the loop: `run_command` raised, or the output passes the test. */
  predicate Stops(p: Probe, inv: Invocation) {
    !inv.Exited? || Ready(p, inv.result)
  }

  /** The index of the first attempt at or after `from` that ends the loop. */
  function FirstStopFrom(p: Probe, attempts: seq<Invocation>, from: nat): (r: Option<nat>)
    requires from <= |attempts|
    ensures r.Some? ==> from <= r.value < |attempts| && Stops(p, attempts[r.value])
    ensures forall j | from <= j < |attempts| && (r.None? || j < r.value) :: !Stops(p, attempts[j])
    decreases |attempts| - from
  {
    if from == |attempts| then None
    else if Stops(p, attempts[from]) then Some(from)
    else FirstStopFrom(p, attempts, from + 1)
  }

  /** The index of the first attempt that ends the loop, if any does. */
  function FirstStop(p: Probe, attempts: seq<Invocation>): (r: Option<nat>)
    ensures r.Some? ==> r.value < |attempts| && Stops(p, attempts[r.value])
    ensures forall j | 0 <= j < |attempts| && (r.None? || j < r.value) :: !Stops(p, attempts[j])
  {
    FirstStopFrom(p, attempts, 0)
  }

  /** How a loop ended: its test passed, an attempt raised, or the supplied attempts ran out first. */
  datatype PollResult = Converged | PollRaised(error: Exception) | StillPolling

  /** The number of commands a loop issues on `attempts`: up to and including the stopping one. */
  function Consumed(p: Probe, attempts: seq<Invocation>): (n: nat)
    ensures n <= |attempts|
  {
    match FirstStop(p, attempts)
    case None => |attempts|
    case Some(i) => i + 1
  }

  /**
   * How a loop on `attempts` ends: it converges on a completed attempt that
   * passes the test, raises what `run_command` raised on the stopping
   * attempt, or is still polling when the attempts run out.
   */
  function LoopEnd(p: Probe, argv: seq<string>, attempts: seq<Invocation>): PollResult
    requires argv != []
  {
    match FirstStop(p, attempts)
    case None => StillPolling
    case Some(i) =>
      if attempts[i].Exited? then Converged else PollRaised(RunCommand(argv, attempts[i], false).error)
  }

  /**
   * A loop keeps polling exactly while every attempt completes unready; it
   * converges only on a ready attempt; and it can only raise the operator's
   * interrupt, the missing-executable error or what `subprocess.run` itself
   * raised, never a failed status.
   */
  lemma LoopEndSpec(p: Probe, argv: seq<string>, attempts: seq<Invocation>)
    requires argv != []
    ensures var r := LoopEnd(p, argv, attempts);
      && (r.StillPolling? <==> forall i | 0 <= i < |attempts| :: attempts[i].Exited? && !Ready(p, attempts[i].result))
      && (r.Converged? ==> exists i | 0 <= i < |attempts| :: attempts[i].Exited? && Ready(p, attempts[i].result))
      && (r.PollRaised? ==> r.error == KeyboardInterrupt || r.error == MacadamError(CommandNotFound(argv[0])) || r.error.OtherError?)
      && (r.PollRaised? ==> r.error != MacadamError("Command failed: " + JoinWords(argv)))
  {
    var first := FirstStop(p, attempts);
    if first.Some? {
      assert Stops(p, attempts[first.value]);
      if attempts[first.value].NotFound? {
        assert CommandNotFound(argv[0])[8] == 'n';
        assert ("Command failed: " + JoinWords(argv))[8] == 'f';
      }
    }
  }

  /**
   * One polling loop: run `argv` once per attempt, leave on the first
   * exception or the first attempt that passes the test. `used` is the
   * number of commands issued.
   */
  method Poll(p: Probe, argv: seq<string>, attempts: seq<Invocation>) returns (used: nat, res: PollResult)
    requires argv != []
    ensures used == Consumed(p, attempts) && res == LoopEnd(p, argv, attempts)
    ensures res.Converged? ==> used > 0 && attempts[used - 1].Exited? && Ready(p, attempts[used - 1].result)
    ensures forall j | 0 <= j < |attempts| && j + 1 < used ::
      RunCommand(argv, attempts[j], false).Ok? && !Ready(p, attempts[j].result)
  {
    var i := 0;
    while i < |attempts|
      invariant 0 <= i <= |attempts|
      invariant FirstStopFrom(p, attempts, i) == FirstStop(p, attempts)
      invariant forall j | 0 <= j < i :: !Stops(p, attempts[j])
    {
      var r := RunCommand(argv, attempts[i], false);
      if r.Err? {
        return i + 1, PollRaised(r.error);
      }
      if Ready(p, r.value) {
        return i + 1, Converged;
      }
      i := i + 1;
    }
    return |attempts|, StillPolling;
  }

  /**
   * The loop consumes exactly the attempts up to the first ready one:
   * after `n` unready attempts that ran to completion, a ready one is the
   * stopping point, whatever follows it.
   */
  lemma {:induction false} StopsAtFirstReady(p: Probe, unready: seq<Completed>, ready: Completed, rest: seq<Invocation>)
    requires forall j | 0 <= j < |unready| :: !Ready(p, unready[j])
    requires Ready(p, ready)
    ensures var attempts := seq(|unready|, j requires 0 <= j < |unready| => Exited(unready[j])) + [Exited(ready)] + rest;
      && FirstStop(p, attempts) == Some(|unready|)
      && Consumed(p, attempts) == |unready| + 1
  {
    var attempts := seq(|unready|, j requires 0 <= j < |unready| => Exited(unready[j])) + [Exited(ready)] + rest;
    assert Stops(p, attempts[|unready|]);
    forall j | 0 <= j < |unready| ensures !Stops(p, attempts[j]) {
      assert attempts[j] == Exited(unready[j]);
    }
    var r := FirstStop(p, attempts);
    assert r.Some? && r.value <= |unready|;
  }

  /** The `result.stdout and` guard is redundant: a sentinel can only occur in non-empty output. */
  lemma {:induction false} SentinelReadyIffContains(p: Probe, c: Completed)
    requires !p.StabilityProbe?
    ensures Ready(p, c) <==> Contains(c.stdout, Sentinel(p))
  {
    if Contains(c.stdout, Sentinel(p)) {
      var i :| 0 <= i <= |c.stdout| - |Sentinel(p)| && OccursAt(c.stdout, Sentinel(p), i);
      assert |c.stdout| >= |Sentinel(p)| > 0;
    }
  }

  /**
   * The stability test reduced to its two effective conditions: the combined
   * output holds a character other than whitespace (so the emptiness guard
   * adds nothing), and it does not mention "progressing".
   */
  lemma StabilityReadyIff(c: Completed)
    ensures Ready(StabilityProbe, c) <==>
      Strip(c.stdout + c.stderr) != "" && !Contains(ToLower(c.stdout + c.stderr), ProgressingWord)
    ensures Ready(StabilityProbe, c) <==>
      && (exists j | 0 <= j < |c.stdout + c.stderr| :: !IsSpace((c.stdout + c.stderr)[j]))
      && !Contains(ToLower(c.stdout + c.stderr), ProgressingWord)
  {
    if c.stdout == "" && c.stderr == "" {
      assert c.stdout + c.stderr == "";
    }
    StripIsTrimmedSlice(c.stdout + c.stderr);
  }

  /**
   * "Progressing" written in any letter case anywhere in standard output
   * or standard error keeps the stability loop polling.
   */
  lemma {:induction false} ProgressingBlocksStability(c: Completed, w: string, i: int)
    requires OccursAt(c.stdout + c.stderr, w, i) && ToLower(w) == ProgressingWord
    ensures !Ready(StabilityProbe, c)
  {
    var out := c.stdout + c.stderr;
    LowerPreservesOccurrence(out, w, i);
    assert OccursAt(ToLower(out), ProgressingWord, i);
  }

  /**
   * The node test is a substring test, so a node listed as "NotReady"
   * passes it as well: the word "Ready" sits three characters in.
   */
  lemma {:induction false} NotReadyPassesNodeProbe(c: Completed, i: int)
    requires OccursAt(c.stdout, "NotReady", i)
    ensures Ready(NodeProbe, c)
  {
    assert c.stdout[i + 3..i + 8] == c.stdout[i..i + 8][3..];
    assert OccursAt(c.stdout, NodeSentinel, i + 3);
  }
}
