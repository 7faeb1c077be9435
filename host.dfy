/**
 * The host façade and the scoped hook protocol of `grinder/host.py`. The
 * remote shell is a function from a call to its response; a `Host`
 * records, in order, every call it issues through `check_output`.
 */
module Hosts {
  import opened Options
  import opened Text
  import opened Ordering
  import opened Stats
  import opened Netfilter

  /** The commands the host layer runs on a remote host. */
  datatype Command =
    | Stat(path: string)
    | Touch(path: string)
    | MakeExecutable(path: string)
    | AppendTo(path: string)
    | RemoveFile(path: string)
    | ReadFile(path: string)
    | ListAddresses
    | ListChain(chain: string)
    | DumpDomain(domain: string)
    | Raw(line: string)

  /**
   * The command line each command is sent as. A command on a file ends
   * with a space and then the path; a raw line is sent verbatim.
   */
  function CommandLine(c: Command): (line: string)
    ensures (c.Stat? || c.Touch? || c.MakeExecutable? || c.AppendTo? || c.RemoveFile? || c.ReadFile?) ==>
      |line| > |c.path| && line[|line| - |c.path| - 1..] == " " + c.path
    ensures c.Raw? ==> line == c.line
  {
    match c
    case Stat(p) => "stat " + p
    case Touch(p) => "touch " + p
    case MakeExecutable(p) => "chmod +x " + p
    case AppendTo(p) => "cat >> " + p
    case RemoveFile(p) => "rm -f " + p
    case ReadFile(p) => "cat " + p
    case ListAddresses => "ip addr | grep \"inet \""
    case ListChain(chain) => "iptables -n -L " + chain + " || true"
    case DumpDomain(d) => "virsh dumpxml " + d
    case Raw(line) => line
  }

  /**
   * One `check_output` call: the command, whether a non-zero exit raises
   * (`exc=True`), and what is fed to the command's standard input.
   */
  datatype Call = Call(command: Command, strict: bool, input: Option<string>)

  /** What the remote shell answers: its output and whether the command exited with status zero. */
  datatype Response = Response(stdout: string, stderr: string, succeeded: bool)

  /** The remote shell as the host layer sees it. */
  type Shell = Call -> Response

  /** What `check_output` hands back: the output, or the exception of a strict call that failed. */
  datatype Outcome = Returned(stdout: string, stderr: string) | Raised

  /** `check_output`: a strict call raises exactly when its command fails; any other call returns the output. */
  function Exec(shell: Shell, c: Call): (o: Outcome)
    ensures o.Raised? <==> c.strict && !shell(c).succeeded
    ensures o.Returned? ==> o.stdout == shell(c).stdout && o.stderr == shell(c).stderr
  {
    var r := shell(c);
    if c.strict && !r.succeeded then Raised else Returned(r.stdout, r.stderr)
  }

  /** The calls an operation issues, in order, and what it returns. */
  datatype Run<T> = Run(calls: seq<Call>, result: T)

  /** The settings of the test configuration the core reads. */
  datatype HostConfig = HostConfig(defaultAz: string, leaveOnFailure: bool)

  /** `COBALT_HOOKS_DIR`. */
  const HooksDir: string := "/etc/cobalt/hooks.d/"

  /**
   * `os.path.join(COBALT_HOOKS_DIR, name)`: the name under the hooks
   * directory, unless it is itself an absolute path, which replaces it.
   */
  function HookPath(name: string): (path: string)
    ensures path != [] && path[0] == '/'
  {
    if name != [] && name[0] == '/' then name else HooksDir + name
  }

  /**
   * The hook file's path ends with the hook's name, and lies under the
   * hooks directory unless the name is absolute, in which case it is the
   * name itself.
   */
  lemma HookPathShape(name: string)
    ensures |HookPath(name)| >= |name| && HookPath(name)[|HookPath(name)| - |name|..] == name
    ensures (name == [] || name[0] != '/') ==> HooksDir <= HookPath(name)
    ensures name != [] && name[0] == '/' ==> HookPath(name) == name
  {
  }

  /** The vmsfs file read: the generation's own file, or `stats` without a generation id. */
  function StatsPath(genid: Option<string>): (path: string)
    ensures "/sys/fs/vmsfs/" <= path
    ensures path[|"/sys/fs/vmsfs/"|..] == if genid.Some? then genid.value else "stats"
  {
    match genid
    case None => "/sys/fs/vmsfs/stats"
    case Some(g) => "/sys/fs/vmsfs/" + g
  }

  /*
   * The calls the host layer issues. Only the hooks-directory probe and
   * the three deploy steps pass `exc=True`; only the append feeds the
   * script to standard input.
   */

  function StatsCall(genid: Option<string>): Call
  {
    Call(ReadFile(StatsPath(genid)), false, None)
  }

  function IpsCall(): Call { Call(ListAddresses, false, None) }

  function IptablesCall(chain: string): Call
  {
    Call(ListChain(chain), false, None)
  }

  function StatCall(): Call { Call(Stat(HooksDir), true, None) }

  function TouchCall(path: string): Call { Call(Touch(path), true, None) }

  function ChmodCall(path: string): Call { Call(MakeExecutable(path), true, None) }

  function AppendCall(path: string, script: string): Call { Call(AppendTo(path), true, Some(script)) }

  function RemoveCall(path: string): Call { Call(RemoveFile(path), false, None) }

  function VirshCall(domain: string): Call { Call(DumpDomain(domain), false, None) }

  /** The three strict steps that deploy a hook: create the file, make it executable, append the script. */
  function DeploySteps(path: string, script: string): seq<Call>
  {
    [TouchCall(path), ChmodCall(path), AppendCall(path, script)]
  }

  /**
   * `__get_iptables_rules`: list the chain (tolerating failure), and when
   * rule lines follow the headers, read the host's addresses and return
   * the normalised, sorted rules. `None` is the `IndexError` of `get_ips`,
   * which is not caught.
   */
  function IptablesRun(shell: Shell, chain: string): (r: Run<Option<seq<string>>>)
    ensures |r.calls| >= 1 && r.calls[0] == IptablesCall(chain)
    ensures |Split(shell(IptablesCall(chain)).stdout, '\n')| <= 2 ==> r == Run([IptablesCall(chain)], Some([]))
    ensures |Split(shell(IptablesCall(chain)).stdout, '\n')| > 2 ==>
      && r.calls == [IptablesCall(chain), IpsCall()]
      && (r.result.Some? <==> IpsOf(shell(IpsCall()).stdout).Some?)
    ensures r.result.Some? ==> Sorted(r.result.value)
    ensures |Split(shell(IptablesCall(chain)).stdout, '\n')| > 2 && IpsOf(shell(IpsCall()).stdout).Some? ==>
      && RuleLines(shell(IptablesCall(chain)).stdout).Some?
      && r.result == Some(NormalisedRules(RuleLines(shell(IptablesCall(chain)).stdout).value, IpsOf(shell(IpsCall()).stdout).value))
  {
    match RuleLines(shell(IptablesCall(chain)).stdout)
    case None => Run([IptablesCall(chain)], Some([]))
    case Some(lines) =>
      var ips := IpsOf(shell(IpsCall()).stdout);
      Run([IptablesCall(chain), IpsCall()], if ips.None? then None else Some(NormalisedRules(lines, ips.value)))
  }

  /**
   * `get_nova_compute_instance_filter_rules`: `(true, rules of the
   * instance chain)` when some normalised master-chain rule mentions the
   * instance chain, `(false, [])` otherwise.
   */
  ghost function FilterRulesRun(shell: Shell, master: string, chain: string): (r: Run<Option<(bool, seq<string>)>>)
    ensures r.result.Some? && !r.result.value.0 ==> r.result.value.1 == []
    ensures r.result.Some? ==> IptablesRun(shell, master).result.Some?
    ensures r.result.Some? ==> (r.result.value.0 <==> Mentions(IptablesRun(shell, master).result.value, chain))
    ensures r.result.Some? && r.result.value.0 ==> IptablesRun(shell, chain).result == Some(r.result.value.1)
    ensures IptablesRun(shell, master).result.Some? && !Mentions(IptablesRun(shell, master).result.value, chain) ==>
      r == Run(IptablesRun(shell, master).calls, Some((false, [])))
    ensures IptablesRun(shell, master).result.Some? && Mentions(IptablesRun(shell, master).result.value, chain) ==>
      r == Run(IptablesRun(shell, master).calls + IptablesRun(shell, chain).calls,
               if IptablesRun(shell, chain).result.None? then None else Some((true, IptablesRun(shell, chain).result.value)))
    ensures IptablesRun(shell, master).result.None? ==> r == Run(IptablesRun(shell, master).calls, None)
  {
    var m := IptablesRun(shell, master);
    match m.result
    case None => Run(m.calls, None)
    case Some(rules) =>
      if Mentions(rules, chain) then
        var c := IptablesRun(shell, chain);
        Run(m.calls + c.calls, if c.result.None? then None else Some((true, c.result.value)))
      else Run(m.calls, Some((false, [])))
  }

  /**
   * The listing of an existing chain with no rules, two header lines and a
   * final newline, reads as the empty rule list once the host's addresses
   * have been read.
   */
  lemma HeaderOnlyChainIsEmpty(shell: Shell, chain: string, header1: string, header2: string)
    requires '\n' !in header1 && '\n' !in header2
    requires shell(IptablesCall(chain)).stdout == header1 + "\n" + header2 + "\n"
    requires IpsOf(shell(IpsCall()).stdout).Some?
    ensures IptablesRun(shell, chain) == Run([IptablesCall(chain), IpsCall()], Some([]))
  {
    var noRules: seq<string> := [];
    var ps: seq<string> := [header1, header2, []];
    assert [header1, header2] + noRules + [[]] == ps;
    assert ps[1..] == [header2, []] && ps[1..][1..] == [[]];
    assert Join([header2, []], "\n") == header2 + "\n";
    assert Join(ps, "\n") == header1 + "\n" + header2 + "\n";
    RuleLinesOfCapture(header1, header2, noRules);
  }

  /**
   * An instance chain that the master chain mentions but that lists no
   * rules yields `(true, [])`, which differs from the `(false, [])` of an
   * unmentioned chain.
   */
  lemma EmptyChainIsPresent(shell: Shell, master: string, chain: string)
    requires IptablesRun(shell, master).result.Some?
    requires Mentions(IptablesRun(shell, master).result.value, chain)
    requires IptablesRun(shell, chain).result == Some([])
    ensures FilterRulesRun(shell, master, chain).result == Some((true, []))
    ensures FilterRulesRun(shell, master, chain).result != Some((false, []))
  {
  }

  /**
   * `drop_hook`: probe for the hooks directory, then create, mark
   * executable and fill the hook file, stopping at the first step that
   * fails.
   */
  function DropHookRun(shell: Shell, name: string, script: string): (r: Run<bool>)
    ensures 1 <= |r.calls| <= 4 && r.calls[0] == StatCall()
  {
    var steps := DeploySteps(HookPath(name), script);
    if !shell(StatCall()).succeeded then Run([StatCall()], false)
    else if !shell(steps[0]).succeeded then Run([StatCall(), steps[0]], false)
    else if !shell(steps[1]).succeeded then Run([StatCall(), steps[0], steps[1]], false)
    else Run([StatCall(), steps[0], steps[1], steps[2]], shell(steps[2]).succeeded)
  }

  /**
   * What `drop_hook` issues: the probe, then a prefix of the three deploy
   * steps in order; every call but the last succeeded, and the last failed
   * unless the hook was deployed; the hook is deployed exactly when the
   * probe and all three steps succeed, and then all four were issued.
   */
  lemma DropHookRunShape(shell: Shell, name: string, script: string)
    ensures var r := DropHookRun(shell, name, script);
      && (!shell(StatCall()).succeeded ==> r.calls == [StatCall()] && !r.result)
      && r.calls[1..] <= DeploySteps(HookPath(name), script)
      && (forall i :: 0 <= i < |r.calls| - 1 ==> shell(r.calls[i]).succeeded)
      && (!r.result ==> !shell(r.calls[|r.calls| - 1]).succeeded)
      && (r.result <==> shell(StatCall()).succeeded && forall c :: c in DeploySteps(HookPath(name), script) ==> shell(c).succeeded)
      && (r.result ==> r.calls == [StatCall()] + DeploySteps(HookPath(name), script))
  {
    var steps := DeploySteps(HookPath(name), script);
    var r := DropHookRun(shell, name, script);
    if !shell(StatCall()).succeeded {
    } else if !shell(steps[0]).succeeded {
      assert r.calls[1..] == steps[..1];
    } else if !shell(steps[1]).succeeded {
      assert r.calls[1..] == steps[..2];
    } else {
      assert r.calls[1..] == steps;
    }
  }

  /**
   * `drop_hook` as written: the handler for a failed deploy step formats a
   * message with two `%s` and one argument, which raises `TypeError`
   * (`None` here) instead of returning `False`.
   */
  function DropHookAsWritten(shell: Shell, name: string, script: string): (r: Run<Option<bool>>)
    ensures r.calls == DropHookRun(shell, name, script).calls
    ensures r.result == Some(false) <==> !shell(StatCall()).succeeded
    ensures r.result == Some(true) <==> DropHookRun(shell, name, script).result
  {
    var intended := DropHookRun(shell, name, script);
    if !shell(StatCall()).succeeded then Run(intended.calls, Some(false))
    else if intended.result then Run(intended.calls, Some(true))
    else Run(intended.calls, None)
  }

  /**
   * On a host whose hooks directory exists but where `touch` fails, the
   * code as written raises instead of returning `False`, while the
   * intended `drop_hook` returns `False` after issuing the probe and the
   * failed `touch`.
   */
  lemma DropHookHandlerRaises(shell: Shell, name: string, script: string)
    requires shell(StatCall()).succeeded && !shell(TouchCall(HookPath(name))).succeeded
    ensures DropHookAsWritten(shell, name, script).result == None
    ensures DropHookRun(shell, name, script) == Run([StatCall(), TouchCall(HookPath(name))], false)
  {
  }

  /**
   * `CobaltHook.__exit__`: unless the scope ended with an exception while
   * hooks are to be left on failure, remove the hook file and then run the
   * cleanup command, if any.
   */
  function ExitCalls(name: string, cleanup: Option<string>, raised: bool, leaveOnFailure: bool): (cs: seq<Call>)
    ensures cs == [] <==> raised && leaveOnFailure
    ensures cs != [] ==> cs[0] == RemoveCall(HookPath(name)) && |cs| == (if cleanup.Some? then 2 else 1)
    ensures cs != [] && cleanup.Some? ==> cs[1] == Call(Raw(cleanup.value), false, None)
  {
    if !raised || !leaveOnFailure then
      [RemoveCall(HookPath(name))] + (if cleanup.Some? then [Call(Raw(cleanup.value), false, None)] else [])
    else []
  }

  /**
   * A hook that was deployed and whose scope ends without an exception is
   * removed: the file `rm -f` deletes is the file `touch` created.
   */
  lemma HookFileRetired(shell: Shell, name: string, script: string, cleanup: Option<string>, leaveOnFailure: bool)
    requires DropHookRun(shell, name, script).result
    ensures CommandLine(DropHookRun(shell, name, script).calls[1].command) == "touch " + HookPath(name)
    ensures CommandLine(ExitCalls(name, cleanup, false, leaveOnFailure)[0].command) == "rm -f " + HookPath(name)
  {
    DropHookRunShape(shell, name, script);
  }

  /**
   * The command lines `drop_hook` sends: a strict `stat` of the hooks
   * directory, then `touch`, `chmod +x` and `cat >>` of the hook file, the
   * last with the script on its standard input.
   */
  lemma DeployCommandLines(path: string, script: string)
    ensures CommandLine(StatCall().command) == "stat /etc/cobalt/hooks.d/" && StatCall().strict
    ensures |DeploySteps(path, script)| == 3
    ensures CommandLine(DeploySteps(path, script)[0].command) == "touch " + path
    ensures CommandLine(DeploySteps(path, script)[1].command) == "chmod +x " + path
    ensures CommandLine(DeploySteps(path, script)[2].command) == "cat >> " + path
    ensures forall c :: c in DeploySteps(path, script) ==> c.strict
    ensures DeploySteps(path, script)[2].input == Some(script)
  {
    var steps := DeploySteps(path, script);
    assert steps[0].command == Touch(path) && steps[1].command == MakeExecutable(path);
    assert steps[2].command == AppendTo(path);
  }

  /** Python's `hex(n)` digits: lower case, no leading zeros. */
  function Hex(n: nat): (ds: string)
    ensures ds != [] && forall i :: 0 <= i < |ds| ==> IsHexDigit(ds[i])
  {
    var d := ["0123456789abcdef"[n % 16]];
    if n < 16 then d else Hex(n / 16) + d
  }

  predicate IsHexDigit(c: char) { ('0' <= c <= '9') || ('a' <= c <= 'f') }

  function HexDigitValue(c: char): nat
    requires IsHexDigit(c)
  {
    if '0' <= c <= '9' then (c as int) - ('0' as int) else (c as int) - ('a' as int) + 10
  }

  /** The number a string of hexadecimal digits denotes. */
  function HexValue(ds: string): nat
    requires forall i :: 0 <= i < |ds| ==> IsHexDigit(ds[i])
  {
    if ds == [] then 0 else 16 * HexValue(ds[..|ds| - 1]) + HexDigitValue(ds[|ds| - 1])
  }

  lemma {:induction false} HexRoundTrip(n: nat)
    ensures HexValue(Hex(n)) == n
  {
    var ds := Hex(n);
    if n >= 16 {
      HexRoundTrip(n / 16);
      assert ds[..|ds| - 1] == Hex(n / 16);
    }
  }

  function Zeros(k: nat): (z: string)
    ensures |z| == k && forall i :: 0 <= i < k ==> z[i] == '0'
  {
    if k == 0 then [] else ['0'] + Zeros(k - 1)
  }

  lemma {:induction false} HexValueLeadingZeros(k: nat, ds: string)
    requires forall i :: 0 <= i < |ds| ==> IsHexDigit(ds[i])
    ensures forall i :: 0 <= i < |Zeros(k) + ds| ==> IsHexDigit((Zeros(k) + ds)[i])
    ensures HexValue(Zeros(k) + ds) == HexValue(ds)
    decreases |ds|
  {
    var s := Zeros(k) + ds;
    if ds == [] {
      assert s == Zeros(k);
      ZerosValue(k);
    } else {
      HexValueLeadingZeros(k, ds[..|ds| - 1]);
      assert s[..|s| - 1] == Zeros(k) + ds[..|ds| - 1];
    }
  }

  lemma {:induction false} ZerosValue(k: nat)
    ensures HexValue(Zeros(k)) == 0
  {
    if k > 0 {
      ZerosValue(k - 1);
      assert Zeros(k) == Zeros(k - 1) + ['0'] by { ZerosSnoc(k); }
      assert Zeros(k)[..k - 1] == Zeros(k - 1);
    }
  }

  lemma ZerosSnoc(k: nat)
    requires k > 0
    ensures Zeros(k) == Zeros(k - 1) + ['0']
  {
  }

  /** Python's `hex(n)` for an `int`: `0x` or `-0x` followed by the digits of the magnitude. */
  function PyHex(n: int): (s: string)
    ensures n >= 0 ==> |s| > 2 && s[..2] == "0x" && (forall i :: 2 <= i < |s| ==> IsHexDigit(s[i])) && HexValue(s[2..]) == n
    ensures n < 0 ==> |s| > 3 && s[..3] == "-0x" && (forall i :: 3 <= i < |s| ==> IsHexDigit(s[i])) && HexValue(s[3..]) == -n
  {
    var ds := Hex(if n < 0 then -n else n);
    var prefix := if n < 0 then "-0x" else "0x";
    HexRoundTrip(if n < 0 then -n else n);
    assert (prefix + ds)[|prefix|..] == ds;
    prefix + ds
  }

  /** Python's `s.zfill(width)`: zeros on the left, after a leading sign, up to `width` characters. */
  function ZFill(s: string, width: nat): (r: string)
    ensures |r| == if |s| >= width then |s| else width
  {
    if |s| >= width then s
    else if s != [] && (s[0] == '+' || s[0] == '-') then [s[0]] + Zeros(width - |s|) + s[1..]
    else Zeros(width - |s|) + s
  }

  /** `'instance-' + hex(id)[2:].zfill(8)`: the libvirt domain name of an instance. */
  function DomName(id: int): (name: string)
    ensures |name| >= 17 && name[..9] == "instance-"
  {
    "instance-" + ZFill(PyHex(id)[2..], 8)
  }

  /**
   * The domain name of a non-negative id is `instance-` followed by at
   * least eight hexadecimal digits (exactly eight below 16^8) that read
   * back as the id.
   */
  lemma DomNameRoundTrip(id: nat)
    ensures |DomName(id)| >= 17 && DomName(id)[..9] == "instance-"
    ensures id < 0x1_0000_0000 ==> |DomName(id)| == 17
    ensures forall i :: 9 <= i < |DomName(id)| ==> IsHexDigit(DomName(id)[i])
    ensures HexValue(DomName(id)[9..]) == id
  {
    var ds := Hex(id);
    assert PyHex(id)[2..] == ds;
    assert DomName(id)[9..] == ZFill(ds, 8);
    ZFillHex(id);
    assert id < 0x1_0000_0000 ==> |ds| <= 8 by {
      if id < 0x1_0000_0000 { HexLength(id, 8); }
    }
  }

  /** Zero-filling the digits of `id` keeps them hexadecimal and keeps their value. */
  lemma ZFillHex(id: nat)
    ensures forall i :: 0 <= i < |ZFill(Hex(id), 8)| ==> IsHexDigit(ZFill(Hex(id), 8)[i])
    ensures HexValue(ZFill(Hex(id), 8)) == id
  {
    var ds := Hex(id);
    HexRoundTrip(id);
    if |ds| < 8 {
      ZFillUnsigned(ds, 8);
      HexValueLeadingZeros(8 - |ds|, ds);
    }
  }

  /** Zero-filling text that has no sign puts the zeros in front. */
  lemma ZFillUnsigned(ds: string, width: nat)
    requires |ds| < width && forall i :: 0 <= i < |ds| ==> IsHexDigit(ds[i])
    ensures ZFill(ds, width) == Zeros(width - |ds|) + ds
  {
    assert ds != [] ==> IsHexDigit(ds[0]);
  }

  lemma {:induction false} HexLength(n: nat, k: nat)
    requires n < Power16(k)
    ensures |Hex(n)| <= if k == 0 then 1 else k
  {
    if n >= 16 {
      assert k >= 2;
      HexLength(n / 16, k - 1);
    }
  }

  function Power16(k: nat): nat
  {
    if k == 0 then 1 else 16 * Power16(k - 1)
  }

  /** Python's `dev[3:]`: the text after the first three characters, empty for shorter text. */
  function DropThree(dev: string): (r: string)
    ensures forall x :: dev == "tap" + x ==> r == x
    ensures |dev| <= 3 ==> r == []
    ensures |dev| > 3 ==> |r| == |dev| - 3 && r == dev[3..]
  {
    if |dev| >= 3 then dev[3..] else []
  }

  /**
   * `get_dom_interface_id`: ask libvirt for the domain's XML and return
   * the first interface's target device without its three-letter prefix.
   * `targetDev` stands for the XML parse and lookup, `None` when it fails.
   */
  function InterfaceIdRun(shell: Shell, targetDev: string -> Option<string>, id: int): (r: Run<Option<string>>)
    ensures r.calls == [VirshCall(DomName(id))]
    ensures r.result.None? <==> targetDev(shell(VirshCall(DomName(id))).stdout).None?
    ensures forall x :: targetDev(shell(VirshCall(DomName(id))).stdout) == Some("tap" + x) ==> r.result == Some(x)
    ensures forall d :: targetDev(shell(VirshCall(DomName(id))).stdout) == Some(d) ==> r.result == Some(DropThree(d))
  {
    var c := VirshCall(DomName(id));
    match targetDev(shell(c).stdout)
    case None => Run([c], None)
    case Some(dev) => Run([c], Some(DropThree(dev)))
  }

  class Host {
    const id: string
    const config: HostConfig
    const shell: Shell
    /** Every call issued to the remote shell so far, oldest first. */
    var issued: seq<Call>

    constructor (hostname: string, config: HostConfig, shell: Shell)
      ensures id == hostname && this.config == config && this.shell == shell && issued == []
    {
      this.id := hostname;
      this.config := config;
      this.shell := shell;
      this.issued := [];
    }

    /**
     * `host_az`: the default zone and the host name joined by `:`, so that
     * when the zone has no `:` of its own the two can be read back.
     */
    function HostAz(): (az: string)
      ensures |az| == |config.defaultAz| + 1 + |id| && az[|config.defaultAz| + 1..] == id
      ensures az[..|config.defaultAz|] == config.defaultAz && az[|config.defaultAz|] == ':'
      ensures ':' !in config.defaultAz ==> Split(az, ':')[0] == config.defaultAz
    {
      var az := config.defaultAz + ":" + id;
      assert ':' !in config.defaultAz ==> Split(az, ':')[0] == config.defaultAz by {
        assert az == config.defaultAz + ([':'] + id);
        if ':' !in config.defaultAz {
          SplitAfterPiece(config.defaultAz, [':'] + id, ':');
          assert config.defaultAz + [] == config.defaultAz;
        }
      }
      az
    }

    method CheckOutput(command: Command, strict: bool, input: Option<string>) returns (o: Outcome)
      modifies this`issued
      ensures issued == old(issued) + [Call(command, strict, input)]
      ensures o == Exec(shell, Call(command, strict, input))
    {
      issued := issued + [Call(command, strict, input)];
      o := Exec(shell, Call(command, strict, input));
    }

    /** `get_vmsfs_stats`: read the whole-host or the per-generation counters. */
    method GetVmsfsStats(genid: Option<string>) returns (stats: Option<map<string, nat>>)
      modifies this`issued
      ensures issued == old(issued) + [StatsCall(genid)]
      ensures stats == StatsOf(StrippedLines(shell(StatsCall(genid)).stdout))
    {
      var o := CheckOutput(ReadFile(StatsPath(genid)), false, None);
      stats := ParseStats(o.stdout);
    }

    /** `get_ips`. */
    method GetIps() returns (ips: Option<seq<string>>)
      modifies this`issued
      ensures issued == old(issued) + [IpsCall()]
      ensures ips == IpsOf(shell(IpsCall()).stdout)
    {
      var o := CheckOutput(ListAddresses, false, None);
      ips := IpsOf(o.stdout);
    }

    /** `__get_iptables_rules`. */
    method GetIptablesRules(chain: string) returns (rules: Option<seq<string>>)
      modifies this`issued
      ensures issued == old(issued) + IptablesRun(shell, chain).calls
      ensures rules == IptablesRun(shell, chain).result
    {
      var o := CheckOutput(ListChain(chain), false, None);
      var lines := RuleLines(o.stdout);
      if lines.None? {
        return Some([]);
      }
      var ips := GetIps();
      if ips.None? {
        return None;
      }
      var normalised := NormaliseRules(lines.value, ips.value);
      return Some(normalised);
    }

    /** `get_nova_compute_instance_filter_rules`. */
    method GetNovaComputeInstanceFilterRules(master: string, chain: string) returns (r: Option<(bool, seq<string>)>)
      modifies this`issued
      ensures issued == old(issued) + FilterRulesRun(shell, master, chain).calls
      ensures r == FilterRulesRun(shell, master, chain).result
    {
      var masterRules := GetIptablesRules(master);
      if masterRules.None? {
        return None;
      }
      var found := FindChainReference(masterRules.value, chain);
      if found {
        var rules := GetIptablesRules(chain);
        if rules.None? {
          return None;
        }
        return Some((true, rules.value));
      }
      return Some((false, []));
    }

    /** `get_dom_interface_id`; `targetDev` stands for the XML parse. */
    method GetDomInterfaceId(instanceId: int, targetDev: string -> Option<string>) returns (dev: Option<string>)
      modifies this`issued
      ensures issued == old(issued) + InterfaceIdRun(shell, targetDev, instanceId).calls
      ensures dev == InterfaceIdRun(shell, targetDev, instanceId).result
    {
      var o := CheckOutput(DumpDomain(DomName(instanceId)), false, None);
      var target := targetDev(o.stdout);
      if target.None? {
        return None;
      }
      return Some(DropThree(target.value));
    }

    /** `check_supports_hooks`: the hooks directory exists exactly when the strict `stat` succeeds. */
    method CheckSupportsHooks() returns (supported: bool)
      modifies this`issued
      ensures issued == old(issued) + [StatCall()]
      ensures supported <==> shell(StatCall()).succeeded
    {
      var o := CheckOutput(Stat(HooksDir), true, None);
      supported := o.Returned?;
    }

    /** `with_hook`: a scoped hook whose name is `name` with the unique `suffix` appended. */
    method WithHook(name: string, script: string, cleanup: Option<string>, suffix: string) returns (h: CobaltHook)
      ensures fresh(h) && h.host == this && h.config == config
      ensures h.hookname == name + suffix && h.hookscript == script && h.cleanup == cleanup
    {
      h := new CobaltHook(name, script, this, config, cleanup, suffix);
    }

    /** `drop_hook`. */
    method DropHook(name: string, script: string) returns (ok: bool)
      modifies this`issued
      ensures issued == old(issued) + DropHookRun(shell, name, script).calls
      ensures ok == DropHookRun(shell, name, script).result
    {
      ghost var before := issued;
      var supported := CheckSupportsHooks();
      if !supported {
        return false;
      }
      var path := HookPath(name);
      var o := CheckOutput(Touch(path), true, None);
      if o.Raised? {
        assert issued == before + [StatCall(), TouchCall(path)];
        return false;
      }
      o := CheckOutput(MakeExecutable(path), true, None);
      if o.Raised? {
        assert issued == before + [StatCall(), TouchCall(path), ChmodCall(path)];
        return false;
      }
      o := CheckOutput(AppendTo(path), true, Some(script));
      assert issued == before + [StatCall(), TouchCall(path), ChmodCall(path), AppendCall(path, script)];
      return o.Returned?;
    }
  }

  /** A hook script deployed for the extent of a scope (`CobaltHook`). */
  class CobaltHook {
    const hookname: string
    const hookscript: string
    const host: Host
    const config: HostConfig
    const cleanup: Option<string>

    /** The hook's name is the caller's base name followed by the unique suffix. */
    constructor (base: string, hookscript: string, host: Host, config: HostConfig, cleanup: Option<string>, suffix: string)
      ensures hookname == base + suffix && base <= hookname
      ensures this.hookscript == hookscript && this.host == host && this.config == config && this.cleanup == cleanup
    {
      this.hookname := base + suffix;
      this.hookscript := hookscript;
      this.host := host;
      this.config := config;
      this.cleanup := cleanup;
    }

    /** `__enter__`: deploy the hook; `false` is the failed assertion that aborts the scope. */
    method Enter() returns (ok: bool)
      modifies host`issued
      ensures host.issued == old(host.issued) + DropHookRun(host.shell, hookname, hookscript).calls
      ensures ok == DropHookRun(host.shell, hookname, hookscript).result
    {
      ok := host.DropHook(hookname, hookscript);
    }

    /** `__exit__`; `raised` says whether the scope ended with an exception. */
    method Exit(raised: bool)
      modifies host`issued
      ensures host.issued == old(host.issued) + ExitCalls(hookname, cleanup, raised, config.leaveOnFailure)
    {
      if !raised || !config.leaveOnFailure {
        var o := host.CheckOutput(RemoveFile(HookPath(hookname)), false, None);
        if cleanup.Some? {
          o := host.CheckOutput(Raw(cleanup.value), false, None);
        }
      }
    }
  }
}
