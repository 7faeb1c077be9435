/**
 * Host addresses and iptables chain captures: `Host.get_ips`,
 * `Host.__get_iptables_rules` and the instance-chain search of
 * `Host.get_nova_compute_instance_filter_rules`.
 */
module Netfilter {
  import opened Options
  import opened Text
  import opened Ordering

  /** The placeholder every host address is replaced by. */
  const HostIp: string := "HOST_IP"

  /** `entry` is `tok` cut just before its first `c` (all of `tok` when it has none). */
  predicate CutAtFirst(entry: string, tok: string, c: char) {
    c !in entry && entry <= tok && (|entry| == |tok| || tok[|entry|] == c)
  }

  /** `tok.split(c)[0]` is `tok` cut at its first `c`. */
  lemma FirstPieceIsCut(tok: string, c: char)
    ensures CutAtFirst(Split(tok, c)[0], tok, c)
  {
    var ps := Split(tok, c);
    JoinSplit(tok, c);
    if |ps| > 1 {
      assert Join(ps, [c]) == ps[0] + [c] + Join(ps[1..], [c]);
      assert tok[|ps[0]|] == c;
    }
  }

  /** A line of `ip addr` output that has a second whitespace-separated field. */
  predicate HasAddressField(line: string) {
    |Tokens(line)| >= 2
  }

  /** `line.split()[1].split("/")[0]`: the address of one `inet` line, without its prefix length. */
  function AddressOf(line: string): (ip: string)
    requires HasAddressField(line)
    ensures '/' !in ip && CutAtFirst(ip, Tokens(line)[1], '/')
  {
    FirstPieceIsCut(Tokens(line)[1], '/');
    Split(Tokens(line)[1], '/')[0]
  }

  /** Every line has an address field. */
  predicate AllHaveAddress(lines: seq<string>) {
    forall i :: 0 <= i < |lines| ==> HasAddressField(lines[i])
  }

  /**
   * `get_ips` on the output of `ip addr | grep "inet "`: one address per
   * line. `None` is the `IndexError` raised when some line, the empty one
   * after a final newline included, has fewer than two fields.
   */
  function IpsOf(stdout: string): (ips: Option<seq<string>>)
    ensures ips.Some? <==> AllHaveAddress(Split(stdout, '\n'))
    ensures ips.Some? ==> |ips.value| == |Split(stdout, '\n')|
    ensures ips.Some? ==> forall i :: 0 <= i < |ips.value| ==> ips.value[i] == AddressOf(Split(stdout, '\n')[i])
  {
    var lines := Split(stdout, '\n');
    if AllHaveAddress(lines) then
      Some(seq(|lines|, i requires 0 <= i < |lines| => AddressOf(lines[i])))
    else None
  }

  /**
   * The rule lines of a listing split into lines: everything after the
   * two header lines, less one empty line at the end. `None` when nothing
   * follows the headers: the source's `rules[-1]` then raises an
   * `IndexError`, which it catches and answers with an empty rule list.
   */
  function DropHeaders(all: seq<string>): (r: Option<seq<string>>)
    ensures r.None? <==> |all| <= 2
    ensures r.Some? ==> |r.value| + 2 <= |all| <= |r.value| + 3 && r.value == all[2..|r.value| + 2]
    ensures r.Some? && |all| == |r.value| + 3 ==> all[|all| - 1] == []
    ensures |all| > 2 && all[|all| - 1] != [] ==> r == Some(all[2..])
  {
    if |all| <= 2 then None
    else
      var rules := all[2..];
      if rules[|rules| - 1] == [] then Some(rules[..|rules| - 1]) else Some(rules)
  }

  /**
   * The rule lines of `iptables -n -L <chain>` output: none when the output
   * has at most two lines, otherwise newline-free lines.
   */
  function RuleLines(stdout: string): (r: Option<seq<string>>)
    ensures r.None? <==> |Split(stdout, '\n')| <= 2
    ensures r.Some? ==> forall i :: 0 <= i < |r.value| ==> '\n' !in r.value[i]
  {
    DropHeaders(Split(stdout, '\n'))
  }

  /**
   * A capture with two header lines and a final newline gives back exactly
   * its rule lines, whatever they are.
   */
  lemma RuleLinesOfCapture(header1: string, header2: string, rules: seq<string>)
    requires '\n' !in header1 && '\n' !in header2
    requires forall i :: 0 <= i < |rules| ==> '\n' !in rules[i]
    ensures RuleLines(Join([header1, header2] + rules + [[]], "\n")) == Some(rules)
  {
    var ps := [header1, header2] + rules + [[]];
    NoNewlineInCapture(header1, header2, rules);
    RuleLinesOfLines(ps);
    assert ps[2..|ps| - 1] == rules;
  }

  lemma RuleLinesOfLines(ps: seq<string>)
    requires |ps| >= 3 && ps[|ps| - 1] == []
    requires forall i :: 0 <= i < |ps| ==> '\n' !in ps[i]
    ensures RuleLines(Join(ps, "\n")) == Some(ps[2..|ps| - 1])
  {
    SplitJoin(ps, '\n');
    assert "\n" == ['\n'];
  }

  lemma NoNewlineInCapture(header1: string, header2: string, rules: seq<string>)
    requires '\n' !in header1 && '\n' !in header2
    requires forall i :: 0 <= i < |rules| ==> '\n' !in rules[i]
    ensures forall i :: 0 <= i < |[header1, header2] + rules + [[]]| ==> '\n' !in ([header1, header2] + rules + [[]])[i]
  {
    var ps := [header1, header2] + rules + [[]];
    forall i | 0 <= i < |ps| ensures '\n' !in ps[i] {
      if 2 <= i < |ps| - 1 {
        assert ps[i] == rules[i - 2];
      }
    }
  }

  /** The tokens with every host address replaced by the placeholder. */
  function Substitute(tokens: seq<string>, ips: seq<string>): (r: seq<string>)
    ensures |r| == |tokens|
  {
    seq(|tokens|, i requires 0 <= i < |tokens| => if tokens[i] in ips then HostIp else tokens[i])
  }

  /**
   * One rule line, normalised: its tokens, host addresses replaced, joined
   * by single spaces. The rule keeps its number of fields.
   */
  function NormaliseRule(line: string, ips: seq<string>): string
  {
    Join(Substitute(Tokens(line), ips), " ")
  }

  /** Every line of a capture, normalised, in capture order. */
  function NormaliseAll(lines: seq<string>, ips: seq<string>): (r: seq<string>)
    ensures |r| == |lines|
  {
    seq(|lines|, i requires 0 <= i < |lines| => NormaliseRule(lines[i], ips))
  }

  /** What `__get_iptables_rules` returns for its rule lines: the normalised lines, sorted. */
  function NormalisedRules(lines: seq<string>, ips: seq<string>): (r: seq<string>)
    ensures Sorted(r) && multiset(r) == multiset(NormaliseAll(lines, ips))
    ensures |r| == |lines|
  {
    var all := NormaliseAll(lines, ips);
    var r := Sort(all);
    assert |r| == |multiset(r)| == |multiset(all)| == |all|;
    r
  }

  /**
   * The loops of `__get_iptables_rules`: each rule is split into tokens, a
   * token that is one of the host's addresses becomes `HOST_IP`, the tokens
   * are joined by single spaces, and the list is sorted at the end.
   */
  method NormaliseRules(lines: seq<string>, ips: seq<string>) returns (rules: seq<string>)
    ensures rules == NormalisedRules(lines, ips)
    ensures Sorted(rules) && multiset(rules) == multiset(NormaliseAll(lines, ips))
  {
    var modified: seq<string> := [];
    for r := 0 to |lines|
      invariant |modified| == r
      invariant forall k :: 0 <= k < r ==> modified[k] == NormaliseRule(lines[k], ips)
    {
      var rule := NormaliseLine(lines[r], ips);
      modified := modified + [rule];
    }
    assert modified == NormaliseAll(lines, ips);
    rules := Sort(modified);
  }

  /** The inner loop of `__get_iptables_rules`: one rule line, token by token. */
  method NormaliseLine(line: string, ips: seq<string>) returns (rule: string)
    ensures rule == NormaliseRule(line, ips)
  {
    var tokens := Tokens(line);
    var newRule: seq<string> := [];
    for t := 0 to |tokens|
      invariant |newRule| == t
      invariant forall k :: 0 <= k < t ==> newRule[k] == (if tokens[k] in ips then HostIp else tokens[k])
    {
      var tok := tokens[t];
      if tok in ips {
        tok := HostIp;
      }
      newRule := newRule + [tok];
    }
    assert newRule == Substitute(tokens, ips);
    rule := Join(newRule, " ");
  }

  lemma HostIpIsToken()
    ensures HostIp != [] && NoSpace(HostIp)
  {
  }

  /**
   * A normalised rule splits back into the substituted tokens of the
   * original line: no token is merged, split, or altered except a host
   * address, which is the placeholder.
   */
  lemma NormaliseRuleTokens(line: string, ips: seq<string>)
    ensures Tokens(NormaliseRule(line, ips)) == Substitute(Tokens(line), ips)
  {
    HostIpIsToken();
    TokensOfJoin(Substitute(Tokens(line), ips));
  }

  /** No token of a normalised rule is a host address, unless the placeholder itself is one. */
  lemma NoHostAddressLeft(line: string, ips: seq<string>)
    ensures forall i :: 0 <= i < |Tokens(NormaliseRule(line, ips))| ==>
      Tokens(NormaliseRule(line, ips))[i] !in ips || Tokens(NormaliseRule(line, ips))[i] == HostIp
  {
    NormaliseRuleTokens(line, ips);
  }

  /** Normalising a normalised rule changes nothing. */
  lemma NormaliseRuleIdempotent(line: string, ips: seq<string>)
    ensures NormaliseRule(NormaliseRule(line, ips), ips) == NormaliseRule(line, ips)
  {
    NormaliseRuleTokens(line, ips);
    var ts := Substitute(Tokens(line), ips);
    assert Substitute(ts, ips) == ts;
  }

  /** Normalising each line maps equal collections of lines to equal collections of rules. */
  lemma {:induction false} NormaliseAllRespectsMultiset(a: seq<string>, b: seq<string>, ips: seq<string>)
    requires multiset(a) == multiset(b)
    ensures multiset(NormaliseAll(a, ips)) == multiset(NormaliseAll(b, ips))
    decreases |a|
  {
    if a != [] {
      var n := |a| - 1;
      var x := a[n];
      assert a == a[..n] + [x];
      assert x in multiset(b);
      var k :| 0 <= k < |b| && b[k] == x;
      var b' := b[..k] + b[k + 1..];
      assert b == b[..k] + [x] + b[k + 1..];
      assert multiset(a[..n]) == multiset(a) - multiset{x};
      assert multiset(b') == multiset(b) - multiset{x};
      NormaliseAllRespectsMultiset(a[..n], b', ips);
      var front, back := NormaliseAll(b[..k], ips), NormaliseAll(b[k + 1..], ips);
      var y := NormaliseAll([x], ips);
      NormaliseAllAppend(a[..n], [x], ips);
      assert NormaliseAll(a, ips) == NormaliseAll(a[..n], ips) + y;
      NormaliseAllAppend(b[..k] + [x], b[k + 1..], ips);
      NormaliseAllAppend(b[..k], [x], ips);
      assert NormaliseAll(b, ips) == front + y + back;
      NormaliseAllAppend(b[..k], b[k + 1..], ips);
      assert NormaliseAll(b', ips) == front + back;
      calc {
        multiset(NormaliseAll(a, ips));
        multiset(NormaliseAll(a[..n], ips)) + multiset(y);
        multiset(front) + multiset(back) + multiset(y);
        multiset(front + y + back);
      }
    }
  }

  lemma NormaliseAllAppend(a: seq<string>, b: seq<string>, ips: seq<string>)
    ensures NormaliseAll(a + b, ips) == NormaliseAll(a, ips) + NormaliseAll(b, ips)
  {
    var l, r := NormaliseAll(a + b, ips), NormaliseAll(a, ips) + NormaliseAll(b, ips);
    assert |l| == |r|;
    forall i | 0 <= i < |l| ensures l[i] == r[i] {
      if i < |a| {
        assert (a + b)[i] == a[i];
      } else {
        assert (a + b)[i] == b[i - |a|];
      }
    }
  }

  /**
   * Two captures whose rule lines are the same up to order normalise to
   * the same list: the comparison is insensitive to the order the kernel
   * reports rules in.
   */
  lemma NormalisedRulesIgnoreOrder(a: seq<string>, b: seq<string>, ips: seq<string>)
    requires multiset(a) == multiset(b)
    ensures NormalisedRules(a, ips) == NormalisedRules(b, ips)
  {
    NormaliseAllRespectsMultiset(a, b, ips);
    SortIgnoresOrder(NormaliseAll(a, ips), NormaliseAll(b, ips));
  }

  /** Feeding a normalised rule list back through the normaliser gives it back unchanged. */
  lemma NormalisedRulesIdempotent(lines: seq<string>, ips: seq<string>)
    ensures NormalisedRules(NormalisedRules(lines, ips), ips) == NormalisedRules(lines, ips)
  {
    var once := NormalisedRules(lines, ips);
    forall i | 0 <= i < |once| ensures NormaliseRule(once[i], ips) == once[i] {
      assert once[i] in multiset(NormaliseAll(lines, ips));
      var k :| 0 <= k < |lines| && NormaliseAll(lines, ips)[k] == once[i];
      NormaliseRuleIdempotent(lines[k], ips);
    }
    assert NormaliseAll(once, ips) == once;
    SortedUnique(Sort(once), once);
  }

  /** Some rule mentions `chain` as a substring. */
  predicate Mentions(rules: seq<string>, chain: string) {
    exists i :: 0 <= i < |rules| && Contains(rules[i], chain)
  }

  /**
   * The search loop of `get_nova_compute_instance_filter_rules`: stop at
   * the first master-chain rule in which the instance chain's name occurs.
   */
  method FindChainReference(rules: seq<string>, chain: string) returns (found: bool)
    ensures found <==> Mentions(rules, chain)
  {
    for i := 0 to |rules|
      invariant forall k :: 0 <= k < i ==> !Contains(rules[k], chain)
    {
      if Contains(rules[i], chain) {
        return true;
      }
    }
    return false;
  }
}
