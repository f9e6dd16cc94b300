/**
 * `get_gvproxy_socket_path` and `get_ssh_port`: both list the running gvproxy
 * process with `pgrep -af gvproxy`, strip the output, and take group 1 of
 * `re.search(r'-services unix://([^ ]+)', ...)` or
 * `re.search(r'-ssh-port (\d+)', ...)`.
 */
module GvproxyDiscovery {
  import opened Optional
  import opened Text
  import opened Commands

  const PgrepArgv: seq<string> := ["pgrep", "-af", "gvproxy"]
  const ServicesFlag := "-services unix://"
  const SshPortFlag := "-ssh-port "

  /** The two character classes of the patterns: `[^ ]` and `\d`. */
  datatype CharClass = NonSpace | Digit

  predicate InClass(c: char, k: CharClass) {
    match k
    case NonSpace => c != ' '
    case Digit => IsDigit(c)
  }

  /** The length of the longest run of class-`k` characters starting at `from`. */
  function RunLength(s: string, from: nat, k: CharClass): (n: nat)
    requires from <= |s|
    ensures from + n <= |s|
    ensures forall j | from <= j < from + n :: InClass(s[j], k)
    ensures from + n == |s| || !InClass(s[from + n], k)
    decreases |s| - from
  {
    if from < |s| && InClass(s[from], k) then 1 + RunLength(s, from + 1, k) else 0
  }

  /** The pattern `lit(k+)` matches at `i`: `lit` occurs there and one class character follows it. */
  predicate MatchAt(s: string, lit: string, k: CharClass, i: int) {
    OccursAt(s, lit, i) && i + |lit| < |s| && InClass(s[i + |lit|], k)
  }

  /** The first position at or after `from` where the pattern matches. */
  function FirstMatch(s: string, lit: string, k: CharClass, from: nat): (r: Option<nat>)
    ensures r.Some? ==> from <= r.value < |s| && MatchAt(s, lit, k, r.value)
    ensures forall j | from <= j && (r.None? || j < r.value) :: !MatchAt(s, lit, k, j)
    decreases |s| - from
  {
    if from >= |s| then None
    else if MatchAt(s, lit, k, from) then Some(from)
    else FirstMatch(s, lit, k, from + 1)
  }

  /** `g` is a non-empty run of class-`k` characters at `from` that cannot be extended. */
  ghost predicate IsMaximalRun(s: string, from: int, k: CharClass, g: string) {
    && 0 <= from
    && from + |g| <= |s|
    && s[from..from + |g|] == g
    && g != []
    && (forall j | 0 <= j < |g| :: InClass(g[j], k))
    && (from + |g| == |s| || !InClass(s[from + |g|], k))
  }

  /**
   * What Python's `re.search(lit + "(k+)", s).group(1)` denotes: the search
   * takes the leftmost position where the pattern matches, and the greedy
   * `+` takes the longest run there.
   */
  ghost predicate IsSearchGroup(s: string, lit: string, k: CharClass, g: string) {
    exists i :: IsSearchGroupAt(s, lit, k, i, g)
  }

  /** `g` is the group captured when the leftmost match is at `i`. */
  ghost predicate IsSearchGroupAt(s: string, lit: string, k: CharClass, i: int, g: string) {
    && MatchAt(s, lit, k, i)
    && (forall j | 0 <= j < i :: !MatchAt(s, lit, k, j))
    && IsMaximalRun(s, i + |lit|, k, g)
  }

  /** The longest run of class-`k` characters starting at `from`: what greedy `k+` consumes there. */
  function RunAt(s: string, from: nat, k: CharClass): (g: string)
    requires from < |s| && InClass(s[from], k)
    ensures IsMaximalRun(s, from, k, g)
  {
    var g := s[from..from + RunLength(s, from, k)];
    assert forall j | 0 <= j < |g| :: g[j] == s[from + j];
    g
  }

  /** The search: `None` when the pattern matches nowhere, else the captured group. */
  function Search(s: string, lit: string, k: CharClass): Option<string> {
    match FirstMatch(s, lit, k, 0)
    case None => None
    case Some(i) => Some(RunAt(s, i + |lit|, k))
  }

  /**
   * `Search` is sound: it finds nothing only when the pattern matches
   * nowhere, and what it finds is the leftmost-longest group.
   */
  lemma SearchSound(s: string, lit: string, k: CharClass)
    ensures Search(s, lit, k).None? <==> forall i :: !MatchAt(s, lit, k, i)
    ensures Search(s, lit, k).Some? ==> IsSearchGroup(s, lit, k, Search(s, lit, k).value)
  {
    var first := FirstMatch(s, lit, k, 0);
    if first.Some? {
      var i := first.value;
      assert IsSearchGroupAt(s, lit, k, i, RunAt(s, i + |lit|, k));
    }
  }

  /** A maximal run is determined by where it starts: it is the run `RunLength` measures. */
  lemma MaximalRunIsRunLength(s: string, from: int, k: CharClass, g: string)
    requires IsMaximalRun(s, from, k, g)
    ensures 0 <= from < |s| && InClass(s[from], k) && g == RunAt(s, from, k)
  {
    assert g[0] == s[from];
    var n := RunLength(s, from, k);
    assert forall j | 0 <= j < |g| :: s[from + j] == g[j];
    assert n <= |g|;
    assert |g| <= n;
  }

  /** A leftmost match is the one `FirstMatch` finds, and `Search` captures the run after it. */
  lemma SearchAtLeftmost(s: string, lit: string, k: CharClass, i: int)
    requires MatchAt(s, lit, k, i) && forall j | 0 <= j < i :: !MatchAt(s, lit, k, j)
    ensures FirstMatch(s, lit, k, 0) == Some(i)
    ensures Search(s, lit, k) == Some(RunAt(s, i + |lit|, k))
  {
    var first := FirstMatch(s, lit, k, 0);
    assert first.Some? && i <= first.value;
  }

  /**
   * The leftmost-longest reading determines the group: whatever satisfies it
   * is what `Search` returns (the converse of `SearchSound`).
   */
  lemma SearchComplete(s: string, lit: string, k: CharClass, g: string)
    requires IsSearchGroup(s, lit, k, g)
    ensures Search(s, lit, k) == Some(g)
  {
    var i :| IsSearchGroupAt(s, lit, k, i, g);
    SearchAtLeftmost(s, lit, k, i);
    MaximalRunIsRunLength(s, i + |lit|, k, g);
  }

  /**
   * Round trip: a line `pre + lit + value + rest`, where `lit` does not
   * occur earlier and `rest` does not continue the run, yields `value`.
   */
  lemma {:induction false} SearchFindsValue(pre: string, lit: string, k: CharClass, value: string, rest: string)
    requires forall i | 0 <= i < |pre| :: !OccursAt(pre + lit, lit, i)
    requires value != [] && forall j | 0 <= j < |value| :: InClass(value[j], k)
    requires rest == [] || !InClass(rest[0], k)
    ensures Search(pre + lit + value + rest, lit, k) == Some(value)
  {
    var s := pre + lit + value + rest;
    var p := |pre| + |lit|;
    assert s == (pre + lit) + (value + rest);
    forall j | 0 <= j < |pre| ensures !MatchAt(s, lit, k, j) {
      OccursInPrefix(pre + lit, value + rest, lit, j);
    }
    assert s[|pre|..p] == lit;
    assert s[p] == value[0];
    assert MatchAt(s, lit, k, |pre|);
    assert s[p..p + |value|] == value;
    if rest != [] {
      assert s[p + |value|] == rest[0];
    }
    assert IsMaximalRun(s, p, k, value);
    assert IsSearchGroupAt(s, lit, k, |pre|, value);
    SearchComplete(s, lit, k, value);
  }

  /** The socket path written after `-services unix://` in a process listing. */
  function SocketPathIn(listing: string): Option<string> {
    Search(Strip(listing), ServicesFlag, NonSpace)
  }

  /** The SSH port written after `-ssh-port ` in a process listing. */
  function SshPortIn(listing: string): Option<string> {
    Search(Strip(listing), SshPortFlag, Digit)
  }

  /**
   * `get_gvproxy_socket_path`: a failing or missing `pgrep` means gvproxy is
   * not running; a listing without the flag is a separate error.
   */
  function GetGvproxySocketPath(pgrep: Invocation): (r: Result<string>)
    ensures r.Ok? ==> r.value != ""
  {
    match RunCommand(PgrepArgv, pgrep, true)
    case Err(e) =>
      if e.IsMacadamError() then Err(MacadamError("The gvproxy process is not running.")) else Err(e)
    case Ok(c) =>
      match SocketPathIn(c.stdout)
      case None => Err(MacadamError("Could not find the gvproxy socket path."))
      case Some(path) => Ok(path)
  }

  /**
   * What `get_gvproxy_socket_path` returns: the group of the leftmost match
   * in the stripped listing, a run of non-space characters; which error it
   * raises otherwise; and that an interrupt passes through.
   */
  lemma GetGvproxySocketPathSpec(pgrep: Invocation)
    ensures var r := GetGvproxySocketPath(pgrep);
      && (pgrep.Interrupted? <==> r == Err(KeyboardInterrupt))
      && (pgrep.LaunchFailed? ==> r == Err(OtherError(pgrep.message)))
      && (r.Err? && r.error.OtherError? ==> pgrep.LaunchFailed?)
      && (r.Ok? <==> pgrep.Exited? && pgrep.result.returncode == 0 && SocketPathIn(pgrep.result.stdout).Some?)
      && (r.Ok? ==> IsSearchGroup(Strip(pgrep.result.stdout), ServicesFlag, NonSpace, r.value))
      && (r.Ok? ==> forall j | 0 <= j < |r.value| :: r.value[j] != ' ')
      && ((pgrep.NotFound? || (pgrep.Exited? && pgrep.result.returncode != 0))
            ==> r == Err(MacadamError("The gvproxy process is not running.")))
      && ((pgrep.Exited? && pgrep.result.returncode == 0 && SocketPathIn(pgrep.result.stdout).None?)
            ==> r == Err(MacadamError("Could not find the gvproxy socket path.")))
  {
    if pgrep.Exited? {
      SearchSound(Strip(pgrep.result.stdout), ServicesFlag, NonSpace);
    }
  }

  /** `get_ssh_port`: the same discovery, for the decimal port after `-ssh-port `. */
  function GetSshPort(pgrep: Invocation): (r: Result<string>)
    ensures r.Ok? ==> r.value != ""
  {
    match RunCommand(PgrepArgv, pgrep, true)
    case Err(e) =>
      if e.IsMacadamError() then Err(MacadamError("The gvproxy process is not running.")) else Err(e)
    case Ok(c) =>
      match SshPortIn(c.stdout)
      case None => Err(MacadamError("Could not find the SSH port in gvproxy command line."))
      case Some(port) => Ok(port)
  }

  /** What `get_ssh_port` returns: a run of decimal digits, or the matching error. */
  lemma GetSshPortSpec(pgrep: Invocation)
    ensures var r := GetSshPort(pgrep);
      && (pgrep.Interrupted? <==> r == Err(KeyboardInterrupt))
      && (pgrep.LaunchFailed? ==> r == Err(OtherError(pgrep.message)))
      && (r.Err? && r.error.OtherError? ==> pgrep.LaunchFailed?)
      && (r.Ok? <==> pgrep.Exited? && pgrep.result.returncode == 0 && SshPortIn(pgrep.result.stdout).Some?)
      && (r.Ok? ==> IsSearchGroup(Strip(pgrep.result.stdout), SshPortFlag, Digit, r.value))
      && (r.Ok? ==> forall j | 0 <= j < |r.value| :: IsDigit(r.value[j]))
      && ((pgrep.NotFound? || (pgrep.Exited? && pgrep.result.returncode != 0))
            ==> r == Err(MacadamError("The gvproxy process is not running.")))
      && ((pgrep.Exited? && pgrep.result.returncode == 0 && SshPortIn(pgrep.result.stdout).None?)
            ==> r == Err(MacadamError("Could not find the SSH port in gvproxy command line.")))
  {
    if pgrep.Exited? {
      SearchSound(Strip(pgrep.result.stdout), SshPortFlag, Digit);
    }
  }

  /**
   * A gvproxy listing `pre + "-services unix://" + path + rest` yields `path`
   * when the flag does not occur earlier, the path holds no whitespace, and
   * `rest` is empty or a space-separated tail.
   */
  lemma SocketPathRoundTrip(pre: string, path: string, rest: string)
    requires pre == [] || !IsSpace(pre[0])
    requires forall i | 0 <= i < |pre| :: !OccursAt(pre + ServicesFlag, ServicesFlag, i)
    requires path != [] && forall j | 0 <= j < |path| :: !IsSpace(path[j])
    requires rest == [] || (rest[0] == ' ' && !IsSpace(rest[|rest| - 1]))
    ensures SocketPathIn(pre + ServicesFlag + path + rest) == Some(path)
  {
    ListingUnstripped(pre, ServicesFlag, path, rest);
    SearchFindsValue(pre, ServicesFlag, NonSpace, path, rest);
  }

  /** The same round trip for the port after `-ssh-port `. */
  lemma SshPortRoundTrip(pre: string, port: string, rest: string)
    requires pre == [] || !IsSpace(pre[0])
    requires forall i | 0 <= i < |pre| :: !OccursAt(pre + SshPortFlag, SshPortFlag, i)
    requires port != [] && forall j | 0 <= j < |port| :: IsDigit(port[j])
    requires rest == [] || (!IsDigit(rest[0]) && !IsSpace(rest[|rest| - 1]))
    ensures SshPortIn(pre + SshPortFlag + port + rest) == Some(port)
  {
    ListingUnstripped(pre, SshPortFlag, port, rest);
    SearchFindsValue(pre, SshPortFlag, Digit, port, rest);
  }

  /** Such a listing has no surrounding whitespace for `strip` to remove. */
  lemma ListingUnstripped(pre: string, lit: string, value: string, rest: string)
    requires lit != [] && !IsSpace(lit[0])
    requires pre == [] || !IsSpace(pre[0])
    requires value != [] && !IsSpace(value[|value| - 1])
    requires rest == [] || !IsSpace(rest[|rest| - 1])
    ensures Strip(pre + lit + value + rest) == pre + lit + value + rest
  {
    var s := pre + lit + value + rest;
    assert s[0] == if pre == [] then lit[0] else pre[0];
    assert s[|s| - 1] == if rest == [] then value[|value| - 1] else rest[|rest| - 1];
    StripUnchanged(s);
  }
}
