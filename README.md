# Grinder host layer and sharing test, in Dafny

Grinder is an integration-test harness for Cobalt/vms memory-sharing
clouds. This project models two pieces of it:

- **The host layer.** `grinder/host.py` provides the `Host` object through which tests act on a compute host over a root shell:
  - reading vmsfs counters;
  - listing the host's addresses;
  - reading and normalising iptables chains;
  - finding a libvirt domain's interface id;
  - probing for and deploying Cobalt hooks.

  It also provides `CobaltHook`, a scoped hook that is deployed on entry and removed on exit.
- **The integer logic of `test_sharing`.** This part of `test/sharing_test.py` covers:
  - clamping the knobs;
  - launching clones until one host holds enough of them;
  - checking that the clones share a generation;
  - the copy-on-write (CoW) accounting.

The remote shell is a function from a call (command, whether a non-zero exit
raises, standard input) to its response (stdout, stderr, success). A `Host`
records, in order, every call it issues. Each host operation is a method on
`Host`. Each method's postcondition ties its result and the calls it issued
to a specification function (`...Run`, or the parser it wraps). The lemmas about those functions
state what the code promises.

Modules:

| file | module | contents |
|---|---|---|
| `options.dfy` | `Options` | `Option` |
| `text.dfy` | `Text` | Python's `strip`, `split(sep)`, `split()`, `join`, substring `in` |
| `order.dfy` | `Ordering` | lexicographic order on strings, sorting (`list.sort`) |
| `stats.dfy` | `Stats` | the vmsfs stats parser of `get_vmsfs_stats` |
| `net.dfy` | `Netfilter` | `get_ips` parsing, iptables listing parsing and rule normalisation |
| `host.dfy` | `Hosts` | the shell model, `Host`, `CobaltHook`, domain names |
| `sharing.dfy` | `Sharing` | `test_sharing` |

## Model

| member | source | states |
|---|---|---|
| Hosts.Exec | grinder/host.py:73-75 | a call made with `exc=True` raises exactly when its command fails; otherwise the command's stdout and stderr are returned |
| Hosts.CommandLine | grinder/host.py:42-191 | each command is sent as the line the source formats (`rm -f`, `cat`, the `ip addr` pipeline, the `iptables -n -L` listing, `virsh dumpxml`, `stat`, `touch`, `chmod +x`, `cat >>`): a command on a file ends with a space and then its path, and a raw cleanup line is sent verbatim |
| Hosts.HookPath | grinder/host.py:41 | `os.path.join(COBALT_HOOKS_DIR, name)` is always an absolute path |
| Hosts.StatsPath | grinder/host.py:78-81 | the file read lies directly in `/sys/fs/vmsfs/`, named by the generation id, or `stats` without one |
| Hosts.StatsCall | grinder/host.py:84 | the stats read is a `cat` of the stats path, with `exc` false and no input |
| Hosts.IpsCall | grinder/host.py:97 | the address listing has `exc` false and no input |
| Hosts.IptablesCall | grinder/host.py:105 | the chain listing has `exc` false and no input (the command itself ends in `\|\| true`) |
| Hosts.VirshCall | grinder/host.py:135 | the domain dump has `exc` false and no input |
| Hosts.StatCall | grinder/host.py:173-174 | the hooks-directory probe is a `stat` with `exc=True` and no input |
| Hosts.TouchCall | grinder/host.py:189 | creating the hook file has `exc=True` and no input |
| Hosts.ChmodCall | grinder/host.py:190 | making it executable has `exc=True` and no input |
| Hosts.AppendCall | grinder/host.py:191-192 | appending has `exc=True` and feeds the hook script to standard input |
| Hosts.DeploySteps | grinder/host.py:189-192 | the deploy is touch, chmod, append, in that order, on one path |
| Hosts.RemoveCall | grinder/host.py:41-42 | removing the hook file has `exc` false and no input |
| Hosts.Host.CheckOutput | grinder/host.py:73-75 | appends exactly this call to the host's log, and its outcome is the shell's answer to it |
| Hosts.Host.constructor | grinder/host.py:51-53 | the host keeps its name and configuration and has issued nothing yet |
| Hosts.Host.HostAz | grinder/host.py:55-62 | the zone is `default_az`, then `:`, then the host id, whatever `default_az` holds; the id can be read back after the separator, and when the default zone has no `:` of its own, the first `:`-piece is the default zone |
| Hosts.HookPathShape | grinder/host.py:187 | the hook file's path ends with the hook name; it lies under `/etc/cobalt/hooks.d/` unless the name is itself absolute, in which case the path is the name |
| Hosts.Host.GetVmsfsStats | grinder/host.py:77-93 | issues one `cat` of `/sys/fs/vmsfs/stats` or `/sys/fs/vmsfs/<genid>`; the result is the stats parse of its stripped output lines |
| Stats.StrippedLines | grinder/host.py:87 | one line per `split('\n')` piece; no line holds a newline or starts or ends with whitespace |
| Stats.ParseLine | grinder/host.py:90-92 | a line reads as a counter exactly when the pattern matches it; the counter's name is a non-empty run of `[a-z_]` that the line begins with, followed by `: ` |
| Stats.StatsOf | grinder/host.py:88-92 | the loop's dictionary: each line in turn overwrites its key, and the first line that does not match makes the read fail; `StatsFailIff`, `StatsKeys` and `StatsLastWins` state what that gives |
| Stats.ParseStats | grinder/host.py:86-93 | the loop over the stripped lines computes exactly `StatsOf` of those lines |
| Stats.KeyLength | grinder/host.py:90 | the `[a-z_]+` group is the longest prefix of key characters |
| Stats.DigitLength | grinder/host.py:90 | the `[0-9]+` group is the longest prefix of digits |
| Stats.MatchGroups | grinder/host.py:90-91 | a match has the regular expression's shape: key, `": "`, digits, `" -"`, anything |
| Stats.MatchGroupsComplete | grinder/host.py:90-91 | every line of that shape matches, with exactly its key and digits as groups |
| Stats.DecimalRoundTrip | grinder/host.py:92 | `long()` of the decimal rendering of n is n |
| Stats.StatsFailIff | grinder/host.py:89-92 | the parse fails exactly when some line does not match |
| Stats.StatsFailureSticks | grinder/host.py:89-92 | once a line has failed, no later lines rescue the parse |
| Stats.StatsKeys | grinder/host.py:88-92 | the dictionary's keys are exactly the keys of the lines |
| Stats.StatsLastWins | grinder/host.py:92 | a key's value is the value on the last line with that key |
| Stats.TrailingNewlineFails | grinder/host.py:87-91 | output ending in a newline yields an empty last line, which does not match, so the parse fails |
| Stats.ParseFormatLine | grinder/host.py:90-92 | a line `key: value -...` parses back to that key and value |
| Stats.StatsOfFormatted | grinder/host.py:88-93 | parsing formatted counter lines gives the map of those counters, with later duplicates winning |
| Stats.StatsRoundTrip | grinder/host.py:87-93 | formatted counters joined by newlines, with no final newline, parse back to their map |
| Stats.FormattedLineIsClean | grinder/host.py:87 | a formatted counter line has no newline and is unchanged by `strip()` |
| Text.Strip | grinder/host.py:87 | `strip()`: the result is the input's text starting just after the leading whitespace, with only whitespace after it; it is empty exactly when the line is all whitespace, and otherwise starts and ends with non-whitespace |
| Text.StripIdempotent | grinder/host.py:87 | stripping twice is stripping once |
| Text.Split | grinder/host.py:87 | `split(sep)` gives at least one piece, and no piece holds the separator; `JoinSplit` and `SplitJoin` relate it to `join` |
| Text.Join | grinder/host.py:123 | `sep.join(ps)`: the pieces with the separator between each two; what it means is stated by `JoinSplit`, `SplitJoin` and `TokensOfJoin` |
| Text.JoinSplit | grinder/host.py:87 | joining the `split('\n')` pieces with the separator gives back the string |
| Text.SplitJoin | grinder/host.py:87 | splitting the join of separator-free pieces gives back the pieces |
| Text.Tokens | grinder/host.py:116 | `split()`: every token is non-empty and free of whitespace |
| Text.TokensKeepNonSpace | grinder/host.py:116 | the tokens, concatenated, are the string with its whitespace removed |
| Text.TokensOfJoin | grinder/host.py:123 | splitting the space-join of tokens gives back the tokens |
| Text.Contains | grinder/host.py:157 | substring `in`: true exactly when the pattern occurs at some position |
| Netfilter.IpsOf | grinder/host.py:95-99 | succeeds exactly when every output line has a second field; then it yields one address per line, namely that field cut at its first `/` |
| Netfilter.HasAddressField | grinder/host.py:98 | `x.split()[1]` does not raise exactly when the line has at least two whitespace-separated fields |
| Netfilter.AllHaveAddress | grinder/host.py:98 | the `map` over the lines raises no `IndexError` exactly when every line has a second field |
| Netfilter.AddressOf | grinder/host.py:98-99 | the address has no `/` and is the part of the second field before its first `/` |
| Netfilter.FirstPieceIsCut | grinder/host.py:99 | `split("/")[0]` is the prefix before the first `/`, or the whole token when there is none |
| Hosts.Host.GetIps | grinder/host.py:95-99 | issues the `ip addr` call once and returns its parse |
| Netfilter.DropHeaders | grinder/host.py:106-111 | with at most two lines, the `IndexError` path is taken; otherwise the lines after the two headers are kept; the last line is dropped only when it is empty, and a non-empty last line is kept |
| Netfilter.RuleLines | grinder/host.py:105-111 | `None` (the caught `IndexError`, which the caller turns into `[]`) exactly when the listing has at most two lines; otherwise the rule lines, none holding a newline |
| Netfilter.RuleLinesOfCapture | grinder/host.py:105-111 | a listing made of two headers, rule lines and a final newline yields exactly the rule lines |
| Netfilter.RuleLinesOfLines | grinder/host.py:105-111 | newline-free pieces ending with an empty piece yield the pieces after the headers, less that last piece |
| Netfilter.NormaliseRule | grinder/host.py:115-123 | one rule line normalised: its `split()` tokens, each host address replaced by `HOST_IP`, joined by single spaces; `NormaliseRuleTokens`, `NoHostAddressLeft` and `NormaliseRuleIdempotent` state what that gives |
| Netfilter.Substitute | grinder/host.py:117-121 | each token that is one of the host's addresses becomes `HOST_IP`; every other token is kept; the count is unchanged |
| Netfilter.NormaliseAll | grinder/host.py:114-123 | `modified_rules` before the sort: each rule line normalised, in listing order, one per line |
| Netfilter.NormaliseLine | grinder/host.py:116-123 | the loop over one rule's tokens computes exactly the normalised rule |
| Netfilter.NormalisedRules | grinder/host.py:113-125 | the result is sorted, is a permutation of the normalised lines, and has one rule per rule line |
| Netfilter.NormaliseRules | grinder/host.py:113-125 | the rules are normalised, sorted, and a permutation of the normalised lines |
| Netfilter.NormaliseRuleTokens | grinder/host.py:115-123 | the tokens of a normalised rule are the rule's tokens with every host address replaced by `HOST_IP` |
| Netfilter.NoHostAddressLeft | grinder/host.py:118-121 | no token of a normalised rule is a host address, unless `HOST_IP` is itself listed as one |
| Netfilter.NormaliseRuleIdempotent | grinder/host.py:115-123 | normalising a normalised rule changes nothing |
| Netfilter.NormalisedRulesIgnoreOrder | grinder/host.py:124-125 | rule listings that differ only in order normalise to the same list |
| Netfilter.NormalisedRulesIdempotent | grinder/host.py:113-125 | normalising the normalised rules changes nothing |
| Ordering.StrLeTotal | grinder/host.py:125 | string order is total |
| Ordering.StrLeAntisymmetric | grinder/host.py:125 | string order is antisymmetric |
| Ordering.StrLeTransitive | grinder/host.py:125 | string order is transitive |
| Ordering.Insert | grinder/host.py:125 | inserting into a sorted list keeps it sorted and adds exactly that element |
| Ordering.StrLe | grinder/host.py:125 | Python 2's `<=` on `str`, the order `sort()` uses: lexicographic by character code, with a proper prefix first |
| Ordering.Sort | grinder/host.py:125 | `sort()` yields a sorted permutation |
| Ordering.SortedUnique | grinder/host.py:125 | two sorted permutations of one list are equal, so any correct sort gives this result |
| Ordering.SortIgnoresOrder | grinder/host.py:125 | sorting two permutations of a list gives the same list |
| Hosts.IptablesRun | grinder/host.py:103-128 | lists the chain first; a listing of at most two lines returns `[]` after that one call; otherwise it also reads the addresses, fails exactly when that read fails, and otherwise returns the rule lines normalised and sorted |
| Hosts.Host.GetIptablesRules | grinder/host.py:103-128 | issues exactly the calls of `IptablesRun` and returns its result |
| Netfilter.FindChainReference | grinder/host.py:156-157 | true exactly when some master-chain rule contains the instance chain's name |
| Netfilter.Mentions | grinder/host.py:156-157 | some master-chain rule contains the instance chain's name as a substring |
| Hosts.FilterRulesRun | grinder/host.py:155-164 | a failed master read fails with only its calls; a master chain that does not mention the instance chain gives `(False, [])` after the master listing alone; one that mentions it is followed by the instance chain's read, and gives `(True, its rules)` unless that read fails |
| Hosts.HeaderOnlyChainIsEmpty | grinder/host.py:105-128 | the listing of an existing chain with no rules (two header lines and a final newline) reads the addresses and gives `[]` |
| Hosts.EmptyChainIsPresent | grinder/host.py:147-164 | a mentioned chain whose rules read as `[]` yields `(True, [])`, which is distinguishable from an absent chain |
| Hosts.Host.GetNovaComputeInstanceFilterRules | grinder/host.py:155-164 | issues exactly the calls of `FilterRulesRun` and returns its result |
| Hosts.Hex | grinder/host.py:134 | `hex()` digits are non-empty lower-case hexadecimal |
| Hosts.HexRoundTrip | grinder/host.py:134 | the hex digits of n read back as n |
| Hosts.PyHex | grinder/host.py:134 | `hex(n)` is `0x`, or `-0x` for a negative n, followed by hex digits that read back as the magnitude of n |
| Hosts.ZFill | grinder/host.py:134 | `zfill(8)` pads to eight characters and never shortens |
| Hosts.ZFillUnsigned | grinder/host.py:134 | an unsigned short digit string is padded by leading zeros only |
| Hosts.HexValueLeadingZeros | grinder/host.py:134 | leading zeros do not change a hex value |
| Hosts.HexLength | grinder/host.py:134 | a number below 16^k has at most k hex digits |
| Hosts.DomName | grinder/host.py:134 | the domain name is `instance-` followed by at least eight characters, whatever the id |
| Hosts.DomNameRoundTrip | grinder/host.py:134 | a domain name is `instance-` followed by at least eight hex digits (exactly eight below 16^8) that read back as the instance id |
| Hosts.DropThree | grinder/host.py:140-142 | `dev[3:]` turns `tap<id>` into `<id>`, and is empty for names of at most three characters |
| Hosts.InterfaceIdRun | grinder/host.py:133-145 | one `virsh dumpxml` of the instance's domain; `None` exactly when the target device cannot be read from the XML; otherwise the device with its first three characters dropped (`dev[3:]`), so a `tap<id>` device gives `<id>` |
| Hosts.Host.GetDomInterfaceId | grinder/host.py:133-145 | issues exactly the calls of `InterfaceIdRun` and returns its result |
| Hosts.DeployCommandLines | grinder/host.py:187-191 | the deploy calls are sent as `touch`, `chmod +x` and `cat >>` of the hook file, all strict, with the script on the last one's input; the probe is the strict `stat /etc/cobalt/hooks.d/` |
| Hosts.Host.CheckSupportsHooks | grinder/host.py:169-177 | one strict `stat` of the hooks directory; supported exactly when it succeeds |
| Hosts.Host.WithHook | grinder/host.py:179-180 | a new scoped hook on this host, with this configuration, named with the unique suffix appended |
| Hosts.DropHookRun | grinder/host.py:182-196 | always probes the hooks directory first and issues at most four calls |
| Hosts.DropHookRunShape | grinder/host.py:182-196 | an unsupported host gets only the probe and `False`; then comes a prefix of touch, chmod and append, stopping at the first failure; the hook is deployed exactly when the probe and all three steps succeed |
| Hosts.Host.DropHook | grinder/host.py:182-196 | issues exactly the calls of `DropHookRun` and returns its result |
| Hosts.DropHookAsWritten | grinder/host.py:193-195 | as written, an unsupported host gives `False`, a full deploy gives `True`, and a failed deploy step raises |
| Hosts.DropHookHandlerRaises | grinder/host.py:188-195 | on a host whose hooks directory exists but where `touch` fails, the code as written raises, while the intended `drop_hook` returns `False` after two calls |
| Hosts.CobaltHook.constructor | grinder/host.py:28-33 | the hook's name is the given name followed by the unique suffix; the other fields are kept |
| Hosts.CobaltHook.Enter | grinder/host.py:35-37 | entering deploys the hook with exactly the calls of `drop_hook`; `false` is the failed assertion |
| Hosts.ExitCalls | grinder/host.py:39-44 | nothing is issued exactly when the scope raised and hooks are left on failure; otherwise `rm -f` of the hook file, then the cleanup command if there is one |
| Hosts.CobaltHook.Exit | grinder/host.py:39-44 | issues exactly the calls of `ExitCalls` |
| Hosts.HookFileRetired | grinder/host.py:39-44 | after a deployed hook, `__exit__` sends `rm -f` of the very path that `drop_hook` sent `touch` for |
| Sharing.ClampClones | test/sharing_test.py:18-25 | a clone count in 2..10 is kept; any other count becomes the default |
| Sharing.ClampSlack | test/sharing_test.py:26-33 | a CoW slack in 0..4096 is kept; any other slack becomes the default |
| Sharing.ClonesInRange | test/sharing_test.py:20-21 | the clone counts the test keeps: 2 to 10 |
| Sharing.SlackInRange | test/sharing_test.py:28-29 | the slacks the test keeps: 0 to 16 × 256 pages |
| Sharing.ClampIdempotent | test/sharing_test.py:18-33 | with in-range defaults, clamping twice is clamping once |
| Sharing.SharingConfig.Clamp | test/sharing_test.py:18-33 | replaces both knobs by their clamped values |
| Sharing.Bucket | test/sharing_test.py:57-60 | a host's clone list holds only clones placed on that host |
| Sharing.HostsOf | test/sharing_test.py:56-60 | the hosts that received a clone, which are `hostdict`'s keys |
| Sharing.Bucketed | test/sharing_test.py:46-60 | `hostdict` maps exactly the used hosts to their clone count and their clones in launch order |
| Sharing.Colocates | test/sharing_test.py:63 | `hostcount == n` after a launch: the last clone's host now holds `n` clones |
| Sharing.Entry | test/sharing_test.py:57 | `hostdict.get(host, (0, []))`: the host's count and clone list, or a zero count and an empty list for a host not yet in `hostdict` (`BucketOfUnusedHost` states this for a bucketed `hostdict`) |
| Sharing.BucketsCover | test/sharing_test.py:56-60 | every launched clone is in its own host's list |
| Sharing.BucketOfUnusedHost | test/sharing_test.py:57 | a host with no clones has the empty list (`get(host, (0, []))`) |
| Sharing.CountsSumToLaunched | test/sharing_test.py:53-60 | the per-host counts sum to the number of clones launched |
| Sharing.BucketedCountsSum | test/sharing_test.py:53-60 | the counts in a bucketed `hostdict` sum to the length of `clonelist` |
| Sharing.RecordLaunch | test/sharing_test.py:56-64 | recording a launch keeps `hostdict` bucketed; the host's count reaches `n` exactly when that clone colocates `n` |
| Sharing.StopAtColocation | test/sharing_test.py:62-64 | the launch that brings a host to `n` clones ends the loop at the first colocation |
| Sharing.LaunchUntilColocated | test/sharing_test.py:46-64 | `hostdict` buckets `clonelist`; the loop stops at the first launch after which that clone's host holds `n` clones, and every other host holds fewer; if it never stops, no prefix colocates |
| Sharing.GenerationsAgree | test/sharing_test.py:66-71 | passes exactly when all launched clones report the same generation |
| Sharing.OneGeneration | test/sharing_test.py:66-71 | every clone in `clonelist` reports the generation of the last launched clone |
| Sharing.WinnersHoarded | test/sharing_test.py:89-93 | every clone on the winning host completes its full hoard |
| Sharing.ClonesReady | test/sharing_test.py:46-93 | a host colocated `n` clones, they are of one generation, and the winners all hoarded |
| Sharing.CowSeen | test/sharing_test.py:113-114 | `sh_cow > 0`; `None` is the `KeyError` of a missing counter |
| Sharing.CowTarget | test/sharing_test.py:125-127 | the target is 256 MiB in pages, or 90% of the maximum memory if smaller |
| Sharing.TmpfsSize | test/sharing_test.py:139-141 | the tmpfs fits the target's pages plus exactly 4 MiB, in whole pages |
| Sharing.Unshared | test/sharing_test.py:131 | `sh_cow + sh_un`, defined exactly when both counters are present |
| Sharing.CowForced | test/sharing_test.py:147-150 | passes exactly when more than `target - slack` pages became unshared; `None` exactly when a counter is missing |
| Sharing.CowForcedExamples | test/sharing_test.py:147-150 | with target 200 and slack 32, 150 pages unshared fail and 170 pass |
| Sharing.FirstColocation | test/sharing_test.py:49-64 | the number of launches up to the first one after which its host holds `n` clones; `None` exactly when no prefix of the launches does so |
| Sharing.WinningPrefix | test/sharing_test.py:46-64 | `clonelist` when the loop exits (and what is deleted at lines 153-154): the launches up to the first colocation, non-empty, or empty when none colocates |
| Sharing.FirstColocationUnique | test/sharing_test.py:62-64 | a prefix that colocates `n` clones, with no shorter prefix doing so, is the first colocation |
| Sharing.PrepareClones | test/sharing_test.py:46-93 | the clones are ready (colocated, of one generation, all hoarded) exactly when no failure is reported, and `clonelist` is then the launches up to the first colocation; a failure is no colocation, a generation mismatch or a failed hoard, in that order |
| Sharing.CheckCounters | test/sharing_test.py:95-150 | the checks on the counters report exactly the first failure among them, in the test's order |
| Sharing.CounterFailure | test/sharing_test.py:95-150 | the counter phase can fail only with an unreadable reading, a missing counter, a division by zero, too little sharing, no CoW or too little CoW |
| Sharing.RatioHolds | test/sharing_test.py:96-105 | the reading has both counters, `cur_allocated` is non-zero, and the resident/allocated ratio is above the expected one |
| Sharing.CowHolds | test/sharing_test.py:112-150 | `sh_cow` was positive after unpausing, and writing the file unshared more than `target - slack` pages |
| Sharing.CounterChecks | test/sharing_test.py:95-150 | the counters pass exactly when the sharing ratio and copy-on-write both hold; each failure kind names the check that failed, with every earlier check passed |
| Sharing.SharingOutcomeMeaning | test/sharing_test.py:43-154 | the test passes exactly when the clones are ready and both counter checks hold, deleting the launches up to the first colocation; each failure kind holds exactly when its check is the first to fail |
| Sharing.SharingOutcome | test/sharing_test.py:43-154 | a pass deletes a non-empty prefix of the launches that colocates `n` clones (the launches up to the first colocation), and only after every counter check passed |
| Sharing.TestSharing | test/sharing_test.py:43-154 | the verdict is the test's outcome. A pass deletes the launches up to the first colocation, which are all of one generation; every clone on the winning host hoarded; the sharing ratio held; and CoW was both seen and forced enough. Conversely, ready clones with both counter checks holding pass. Each failure kind (no colocation, generation mismatch, failed hoard, division by zero, too little sharing, no CoW, too little CoW) holds exactly when its check is the first to fail, and a missing counter or unreadable reading means one of them was missing |

## Left out

- The SSH transport (`get_shell`, `RootShell`, `__str__`). The shell is a function from a call to its response. Transport errors are not modelled. `grinder/shell.py` is not part of this model; its `check_output` is taken to raise only when `exc=True` and the command fails, with `exc` false by default (as in `get_ips`, `__get_iptables_rules` and `__exit__`).
- XML parsing in `get_dom_interface_id`. It becomes the `targetDev` parameter, a function from `virsh` output to the `dev` attribute of the first interface's target, or `None` for any parse error.
- `uuid.uuid4()` in `CobaltHook.__init__`. It becomes the `suffix` parameter.
- Logging (`log.debug`, `log.warn`, `log.error`, `log.exception`), and `pytest.skip` on `test_sharing_disable`.
- Hosts.DomName: Python 2's `L` suffix of `hex()` on a `long` id is not modelled. Negative ids are rendered as `hex()` renders them, but only non-negative ids are proved about.
- Sharing.TestSharing: `blessed.launch`, `get_host`, `vmsctl` (pause, unpause, flags, targets, `generation`, `get_max_memory`), `root_command`, `drop_caches` and `delete` are effects on clones. The model takes their observable results as inputs (`Observations`): placements in launch order, hoard success, the four vmsfs readings, and the whole part of 90% of the maximum memory.
- Sharing.TestSharing: the test's launch loop is unbounded (`while True`). The model runs over a finite sequence of placements, and running out of placements is `NeverColocated`.
- Sharing.TestSharing: the float share ratio and its clamp (`test/sharing_test.py:34-41`), and the comparison `resident / allocated > clones * ratio`, are left out as floating point. The comparison is the `ratioHigh` oracle. A zero `cur_allocated` is the `ZeroDivisionError`, modelled as `DivisionByZero`.
- Sharing.ClampClones: the `int()` casts of the configuration strings are not modelled; the knobs arrive as integers. `test/config.py` is not part of this model, so `DEFAULT_SHARING_CLONES` and `DEFAULT_COW_SLACK` are parameters.
- Ordering.Sort: Python's `list.sort` is Timsort, and the model sorts by insertion. `SortedUnique` shows that both give the same list.
- Sharing.Bucket: its contract does not say that each clone in a host's list was launched; `BucketsCover` gives the converse.
- Hosts.DropHookRun: its own contract only bounds the calls; the full behaviour is in `DropHookRunShape`.
- Hosts.Host.DropHook, Hosts.CobaltHook.Enter: they follow the corrected handler of the Findings row, so a failed deploy step returns `False`. The code as written raises `TypeError` there, which `Hosts.DropHookAsWritten` models.
- Hosts.FilterRulesRun: the shell is a function of the call alone. It keeps no state and answers the same call the same way each time. `get_nova_compute_instance_filter_rules` runs `ip addr` twice, once per `__get_iptables_rules` (grinder/host.py:156 and 160-161). In the source the second run is a fresh remote command that can answer differently, or raise `IndexError` on its own. In the model it repeats the first answer, so `FilterRulesRun` fails only when the master chain's read fails.
- Hosts.IptablesRun, Hosts.FilterRulesRun: `None` stands for the uncaught `IndexError` of `x.split()[1]` in `get_ips` (grinder/host.py:98), without the exception's type. The `IndexError` of `rules[-1]` (grinder/host.py:108) is caught and gives `[]`.
- Hosts.InterfaceIdRun: its `None` is the function's own "not found" return value, not an exception.
- Hosts.DropHookAsWritten: its `None` stands for the `TypeError` that the handler raises.
- The model follows the code:
  - a stats line that does not match the pattern makes `get_vmsfs_stats` fail;
  - the clones are deleted only when every assertion of the test passes.

## Findings

| source | as written | input that shows it | evidently intended | confidence | as-written member | corrected member |
|---|---|---|---|---|---|---|
| grinder/host.py:193-195 | the handler formats `"Dropping hook %s on host %s failed" % hookname`, with two `%s` and one argument, so it raises `TypeError` instead of returning `False` | a host where `stat /etc/cobalt/hooks.d/` succeeds but `touch` of the hook file fails | log the failure and return `False` | high, not executed | Hosts.DropHookHandlerRaises | Hosts.DropHookRunShape |
