/**
 * The integer orchestration of `test_sharing` (`test/sharing_test.py`):
 * clamping the knobs, launching clones until one host holds enough of
 * them, checking that they share one generation, and the copy-on-write
 * accounting.
 */
module Sharing {
  import opened Options

  /** A launched clone: its id, the host it was placed on, and the generation its vmsctl reports. */
  datatype Clone = Clone(id: nat, host: string, generation: string)

  // ---------------------------------------------------------------- knobs

  /** Whether a clone count keeps the test meaningful. */
  predicate ClonesInRange(c: int) { 2 <= c <= 10 }

  /** Whether a CoW slack (in 4 KiB pages) keeps the test meaningful: at most 16 MiB. */
  predicate SlackInRange(s: int) { 0 <= s <= 16 * 256 }

  /** The clone count the test uses: the configured one when in range, the default otherwise. */
  function ClampClones(c: int, default: int): (r: int)
    ensures ClonesInRange(c) ==> r == c
    ensures !ClonesInRange(c) ==> r == default
    ensures ClonesInRange(default) ==> ClonesInRange(r)
  {
    if c < 2 || c > 10 then default else c
  }

  /** The CoW slack the test uses: the configured one when in range, the default otherwise. */
  function ClampSlack(s: int, default: int): (r: int)
    ensures SlackInRange(s) ==> r == s
    ensures !SlackInRange(s) ==> r == default
    ensures SlackInRange(default) ==> SlackInRange(r)
  {
    if s < 0 || s > 16 * 256 then default else s
  }

  /** Clamping twice with the same in-range default changes nothing the second time. */
  lemma ClampIdempotent(c: int, s: int, defaultClones: int, defaultSlack: int)
    requires ClonesInRange(defaultClones) && SlackInRange(defaultSlack)
    ensures ClampClones(ClampClones(c, defaultClones), defaultClones) == ClampClones(c, defaultClones)
    ensures ClampSlack(ClampSlack(s, defaultSlack), defaultSlack) == ClampSlack(s, defaultSlack)
  {
  }

  /** The integer knobs of the test configuration, which `test_sharing` rewrites in place. */
  class SharingConfig {
    var sharingClones: int
    var cowSlack: int

    constructor (sharingClones: int, cowSlack: int)
      ensures this.sharingClones == sharingClones && this.cowSlack == cowSlack
    {
      this.sharingClones := sharingClones;
      this.cowSlack := cowSlack;
    }

    /** Replace each out-of-range knob by its default. */
    method Clamp(defaultClones: int, defaultSlack: int)
      modifies this
      ensures sharingClones == ClampClones(old(sharingClones), defaultClones)
      ensures cowSlack == ClampSlack(old(cowSlack), defaultSlack)
    {
      if sharingClones < 2 || sharingClones > 10 {
        sharingClones := defaultClones;
      }
      if cowSlack < 0 || cowSlack > 16 * 256 {
        cowSlack := defaultSlack;
      }
    }
  }

  // ------------------------------------------------------------ bucketing

  /** The clones of `cs` placed on host `h`, in launch order. */
  function Bucket(cs: seq<Clone>, h: string): (b: seq<Clone>)
    ensures |b| <= |cs|
    ensures forall i :: 0 <= i < |b| ==> b[i].host == h
  {
    if cs == [] then []
    else Bucket(cs[..|cs| - 1], h) + (if cs[|cs| - 1].host == h then [cs[|cs| - 1]] else [])
  }

  /** The hosts some clone of `cs` was placed on. */
  function HostsOf(cs: seq<Clone>): set<string>
  {
    set i | 0 <= i < |cs| :: cs[i].host
  }

  /** `hostdict` holds, for each host used so far, its count and its clones in launch order. */
  predicate Bucketed(hostdict: map<string, (nat, seq<Clone>)>, cs: seq<Clone>)
  {
    && hostdict.Keys == HostsOf(cs)
    && forall h :: h in hostdict ==> hostdict[h] == (|Bucket(cs, h)|, Bucket(cs, h))
  }

  /** The last launched clone's host now holds exactly `n` clones. */
  predicate Colocates(cs: seq<Clone>, n: int)
  {
    cs != [] && |Bucket(cs, cs[|cs| - 1].host)| == n
  }

  lemma BucketSnoc(cs: seq<Clone>, c: Clone, h: string)
    ensures Bucket(cs + [c], h) == Bucket(cs, h) + (if c.host == h then [c] else [])
  {
    assert (cs + [c])[..|cs|] == cs;
  }

  lemma {:induction false} BucketOfUnusedHost(cs: seq<Clone>, h: string)
    requires h !in HostsOf(cs)
    ensures Bucket(cs, h) == []
  {
    if cs != [] {
      var init := cs[..|cs| - 1];
      assert HostsOf(init) <= HostsOf(cs) by {
        forall x | x in HostsOf(init) ensures x in HostsOf(cs) {
          var i :| 0 <= i < |init| && init[i].host == x;
          assert cs[i].host == x;
        }
      }
      BucketOfUnusedHost(init, h);
      assert cs[|cs| - 1].host in HostsOf(cs);
    }
  }

  /** Every clone lands in the bucket of its own host. */
  lemma {:induction false} BucketsCover(cs: seq<Clone>, i: nat)
    requires i < |cs|
    ensures cs[i] in Bucket(cs, cs[i].host)
  {
    var init := cs[..|cs| - 1];
    if i < |cs| - 1 {
      BucketsCover(init, i);
    }
  }

  /** The sum, over the hosts in `hs`, of the number of clones each holds. */
  ghost function SumOver(cs: seq<Clone>, hs: set<string>): nat
    decreases hs
  {
    if hs == {} then 0
    else
      var h :| h in hs;
      |Bucket(cs, h)| + SumOver(cs, hs - {h})
  }

  lemma {:induction false} SumOverRemove(cs: seq<Clone>, hs: set<string>, x: string)
    requires x in hs
    ensures SumOver(cs, hs) == |Bucket(cs, x)| + SumOver(cs, hs - {x})
    decreases hs
  {
    var h :| h in hs && SumOver(cs, hs) == |Bucket(cs, h)| + SumOver(cs, hs - {h});
    if h != x {
      SumOverRemove(cs, hs - {h}, x);
      SumOverRemove(cs, hs - {x}, h);
      assert hs - {h} - {x} == hs - {x} - {h};
    }
  }

  lemma {:induction false} SumOverSnoc(cs: seq<Clone>, c: Clone, hs: set<string>)
    ensures SumOver(cs + [c], hs) == SumOver(cs, hs) + (if c.host in hs then 1 else 0)
    decreases hs
  {
    if hs != {} {
      var h :| h in hs;
      SumOverRemove(cs + [c], hs, h);
      SumOverRemove(cs, hs, h);
      SumOverSnoc(cs, c, hs - {h});
      BucketSnoc(cs, c, h);
    }
  }

  /** The counts of the hosts used sum to the number of clones launched. */
  lemma {:induction false} CountsSumToLaunched(cs: seq<Clone>)
    ensures SumOver(cs, HostsOf(cs)) == |cs|
  {
    if cs != [] {
      var init := cs[..|cs| - 1];
      var c := cs[|cs| - 1];
      assert cs == init + [c];
      CountsSumToLaunched(init);
      SumOverSnoc(init, c, HostsOf(cs));
      assert HostsOf(cs) == HostsOf(init) + {c.host} by {
        forall x | x in HostsOf(cs) ensures x in HostsOf(init) + {c.host} {
          var i :| 0 <= i < |cs| && cs[i].host == x;
          if i < |init| { assert init[i].host == x; }
        }
        forall x | x in HostsOf(init) ensures x in HostsOf(cs) {
          var i :| 0 <= i < |init| && init[i].host == x;
          assert cs[i].host == x;
        }
      }
      if c.host in HostsOf(init) {
        assert HostsOf(cs) == HostsOf(init);
      } else {
        SumOverRemove(init, HostsOf(cs), c.host);
        BucketOfUnusedHost(init, c.host);
        assert HostsOf(cs) - {c.host} == HostsOf(init);
      }
    }
  }

  /** The counts in a bucketed `hostdict` sum to the number of clones launched. */
  lemma BucketedCountsSum(hostdict: map<string, (nat, seq<Clone>)>, cs: seq<Clone>)
    requires Bucketed(hostdict, cs)
    ensures SumOver(cs, hostdict.Keys) == |cs|
  {
    CountsSumToLaunched(cs);
  }

  lemma HostsOfSnoc(cs: seq<Clone>, c: Clone)
    ensures HostsOf(cs + [c]) == HostsOf(cs) + {c.host}
  {
    var s := cs + [c];
    forall x | x in HostsOf(s) ensures x in HostsOf(cs) + {c.host} {
      var i :| 0 <= i < |s| && s[i].host == x;
      if i < |cs| { assert cs[i].host == x; }
    }
    forall x | x in HostsOf(cs) ensures x in HostsOf(s) {
      var i :| 0 <= i < |cs| && cs[i].host == x;
      assert s[i].host == x;
    }
    assert s[|cs|].host == c.host;
  }

  /** `hostdict.get(host, (0, []))`. */
  function Entry(hostdict: map<string, (nat, seq<Clone>)>, host: string): (nat, seq<Clone>)
  {
    if host in hostdict then hostdict[host] else (0, [])
  }

  /** No prefix of the first `i` launches colocates `n` clones. */
  predicate NoneColocated(launches: seq<Clone>, i: nat, n: int)
    requires i <= |launches|
  {
    forall k :: 1 <= k <= i ==> !Colocates(launches[..k], n)
  }

  lemma NoneColocatedSnoc(launches: seq<Clone>, i: nat, n: int)
    requires i < |launches| && NoneColocated(launches, i, n) && !Colocates(launches[..i + 1], n)
    ensures NoneColocated(launches, i + 1, n)
  {
  }

  /** The search for the first colocating prefix, from prefix length `i` on. */
  function FirstColocationFrom(launches: seq<Clone>, n: int, i: nat): (k: Option<nat>)
    requires i <= |launches| && NoneColocated(launches, i, n)
    ensures k.None? ==> NoneColocated(launches, |launches|, n)
    ensures k.Some? ==> i < k.value <= |launches| && Colocates(launches[..k.value], n) && NoneColocated(launches, k.value - 1, n)
    decreases |launches| - i
  {
    if i == |launches| then None
    else if Colocates(launches[..i + 1], n) then Some(i + 1)
    else FirstColocationFrom(launches, n, i + 1)
  }

  /**
   * The number of launches up to and including the first one after which
   * its host holds `n` clones, or `None` when no launch does.
   */
  function FirstColocation(launches: seq<Clone>, n: int): (k: Option<nat>)
    ensures k.None? <==> NoneColocated(launches, |launches|, n)
    ensures k.Some? ==> 1 <= k.value <= |launches| && Colocates(launches[..k.value], n) && NoneColocated(launches, k.value - 1, n)
  {
    FirstColocationFrom(launches, n, 0)
  }

  /** A prefix that colocates `n` clones with no shorter one doing so is the first colocation. */
  lemma FirstColocationUnique(launches: seq<Clone>, n: int, k: nat)
    requires 1 <= k <= |launches| && Colocates(launches[..k], n) && NoneColocated(launches, k - 1, n)
    ensures FirstColocation(launches, n) == Some(k)
  {
    var j := FirstColocation(launches, n).value;
    assert Colocates(launches[..j], n) && NoneColocated(launches, j - 1, n);
  }

  /** The launches up to the first colocation, or none if there is none. */
  function WinningPrefix(launches: seq<Clone>, n: int): (ws: seq<Clone>)
    ensures FirstColocation(launches, n).Some? ==> ws == launches[..FirstColocation(launches, n).value] && ws != []
    ensures FirstColocation(launches, n).None? ==> ws == []
  {
    match FirstColocation(launches, n)
    case None => []
    case Some(k) => launches[..k]
  }

  /** Recording one more launch, as the loop body does, keeps `hostdict` bucketed. */
  lemma BucketedSnoc(hostdict: map<string, (nat, seq<Clone>)>, cs: seq<Clone>, c: Clone)
    requires Bucketed(hostdict, cs)
    ensures var entry := Entry(hostdict, c.host);
      Bucketed(hostdict[c.host := (entry.0 + 1, entry.1 + [c])], cs + [c])
  {
    var entry := Entry(hostdict, c.host);
    var m := hostdict[c.host := (entry.0 + 1, entry.1 + [c])];
    HostsOfSnoc(cs, c);
    forall h | h in m ensures m[h] == (|Bucket(cs + [c], h)|, Bucket(cs + [c], h)) {
      BucketSnoc(cs, c, h);
      if h != c.host {
        assert h in hostdict && m[h] == hostdict[h];
        assert hostdict[h] == (|Bucket(cs, h)|, Bucket(cs, h));
        assert Bucket(cs + [c], h) == Bucket(cs, h);
      } else if c.host in hostdict {
        assert entry == (|Bucket(cs, h)|, Bucket(cs, h));
        assert Bucket(cs + [c], h) == entry.1 + [c];
      } else {
        BucketOfUnusedHost(cs, h);
        assert Bucket(cs + [c], h) == [] + [c];
      }
    }
  }

  /**
   * Recording one launch keeps every invariant of the launch loop, and the
   * launch colocates `n` clones exactly when its host's count reaches `n`.
   */
  lemma RecordLaunch(hostdict: map<string, (nat, seq<Clone>)>, cs: seq<Clone>, c: Clone, n: int)
    requires Bucketed(hostdict, cs)
    requires n >= 1 ==> forall h :: h in hostdict ==> hostdict[h].0 < n
    ensures var entry := Entry(hostdict, c.host);
      var m := hostdict[c.host := (entry.0 + 1, entry.1 + [c])];
      && Bucketed(m, cs + [c])
      && SumOver(cs + [c], m.Keys) == |cs + [c]|
      && (Colocates(cs + [c], n) <==> entry.0 + 1 == n)
      && (entry.0 + 1 != n ==> n >= 1 ==> forall h :: h in m ==> m[h].0 < n)
      && (entry.0 + 1 == n ==> c.host in m && m[c.host].0 == n && forall h :: h in m && h != c.host ==> m[h].0 < n)
  {
    var entry := Entry(hostdict, c.host);
    var m := hostdict[c.host := (entry.0 + 1, entry.1 + [c])];
    assert (cs + [c])[|cs|] == c;
    BucketedSnoc(hostdict, cs, c);
    assert c.host in m && m[c.host].0 == entry.0 + 1 == |Bucket(cs + [c], c.host)|;
    BucketedCountsSum(m, cs + [c]);
  }

  /**
   * How the launch loop ends when it finds a host: `clonelist` is the
   * launches up to the first one after which its host holds `n` clones;
   * that host is `winner`, with count `n`, and every other host holds
   * fewer.
   */
  predicate StoppedAtFirstColocation(
    launches: seq<Clone>, n: int, clonelist: seq<Clone>, hostdict: map<string, (nat, seq<Clone>)>, winner: string)
  {
    && 1 <= |clonelist| <= |launches| && clonelist == launches[..|clonelist|]
    && Colocates(clonelist, n)
    && NoneColocated(launches, |clonelist| - 1, n)
    && winner == clonelist[|clonelist| - 1].host
    && winner in hostdict && hostdict[winner].0 == n
    && forall h :: h in hostdict && h != winner ==> hostdict[h].0 < n
  }

  lemma StopAtColocation(launches: seq<Clone>, i: nat, n: int, hostdict: map<string, (nat, seq<Clone>)>)
    requires i < |launches| && NoneColocated(launches, i, n)
    requires Bucketed(hostdict, launches[..i])
    requires n >= 1 ==> forall h :: h in hostdict ==> hostdict[h].0 < n
    requires var c := launches[i];
      Entry(hostdict, c.host).0 + 1 == n
    ensures var c := launches[i];
      var entry := Entry(hostdict, c.host);
      StoppedAtFirstColocation(launches, n, launches[..i + 1], hostdict[c.host := (entry.0 + 1, entry.1 + [c])], c.host)
  {
    var c := launches[i];
    assert launches[..i] + [c] == launches[..i + 1];
    RecordLaunch(hostdict, launches[..i], c, n);
  }

  /**
   * The launch loop of `test_sharing` over the clones the scheduler
   * places, in order: stop at the first launch after which the launched
   * clone's host holds `n` clones. `winner` is that host, or `None` when
   * the placements run out first.
   */
  method LaunchUntilColocated(launches: seq<Clone>, n: int)
    returns (clonelist: seq<Clone>, hostdict: map<string, (nat, seq<Clone>)>, winner: Option<string>)
    ensures Bucketed(hostdict, clonelist)
    ensures winner.Some? ==> StoppedAtFirstColocation(launches, n, clonelist, hostdict, winner.value)
    ensures winner.None? ==> clonelist == launches && NoneColocated(launches, |launches|, n)
  {
    clonelist := [];
    hostdict := map[];
    winner := None;
    var i := 0;
    while i < |launches|
      invariant 0 <= i <= |launches|
      invariant clonelist == launches[..i]
      invariant Bucketed(hostdict, clonelist)
      invariant SumOver(clonelist, hostdict.Keys) == |clonelist|
      invariant n >= 1 ==> forall h :: h in hostdict ==> hostdict[h].0 < n
      invariant NoneColocated(launches, i, n)
    {
      var clone := launches[i];
      assert launches[..i + 1] == clonelist + [clone];
      var entry := Entry(hostdict, clone.host);
      var hostcount := entry.0 + 1;
      RecordLaunch(hostdict, clonelist, clone, n);
      if hostcount == n {
        StopAtColocation(launches, i, n, hostdict);
      }
      clonelist := clonelist + [clone];
      hostdict := hostdict[clone.host := (entry.0 + 1, entry.1 + [clone])];
      if hostcount == n {
        winner := Some(clone.host);
        return;
      }
      NoneColocatedSnoc(launches, i, n);
      i := i + 1;
    }
  }

  // ----------------------------------------------------------- generation

  /** Whether every clone reports the same generation as `reference`. */
  predicate AllOfGeneration(clones: seq<Clone>, reference: string)
  {
    forall i :: 0 <= i < |clones| ==> clones[i].generation == reference
  }

  /**
   * The generation check: compare every launched clone, in launch order,
   * with the generation of the last one launched; `false` is the failed
   * assertion.
   */
  method GenerationsAgree(clonelist: seq<Clone>) returns (ok: bool)
    requires clonelist != []
    ensures ok <==> forall i, j :: 0 <= i < |clonelist| && 0 <= j < |clonelist| ==>
      clonelist[i].generation == clonelist[j].generation
  {
    var generation := clonelist[|clonelist| - 1].generation;
    for i := 0 to |clonelist|
      invariant AllOfGeneration(clonelist[..i], generation)
    {
      if clonelist[i].generation != generation {
        return false;
      }
    }
    assert clonelist[..|clonelist|] == clonelist;
    return true;
  }

  // ----------------------------------------------------------------- CoW

  /**
   * The number of 4 KiB pages written to force copy-on-write: 256 MiB, or
   * `ninety` (the whole part of 90% of the clone's maximum memory) if
   * smaller.
   */
  function CowTarget(ninety: int): (target: int)
    ensures target <= 256 * 256 && target <= ninety
    ensures target == 256 * 256 || target == ninety
  {
    if ninety < 256 * 256 then ninety else 256 * 256
  }

  /** The size of the clone's tmpfs, in bytes: room for the file plus 4 MiB of headroom. */
  function TmpfsSize(target: int): (bytes: int)
    ensures bytes - target * 4096 == 4 * 1024 * 1024
    ensures bytes % 4096 == 0
    ensures target <= 256 * 256 ==> bytes <= (256 + 4) * 1024 * 1024
  {
    (target + 256 * 4) * 4096
  }

  /** `stats['sh_cow'] + stats['sh_un']`; `None` is the `KeyError` of a missing counter. */
  function Unshared(stats: map<string, nat>): (u: Option<nat>)
    ensures u.Some? <==> "sh_cow" in stats && "sh_un" in stats
    ensures u.Some? ==> u.value >= stats["sh_cow"] && u.value >= stats["sh_un"]
  {
    if "sh_cow" in stats && "sh_un" in stats then Some(stats["sh_cow"] + stats["sh_un"]) else None
  }

  /**
   * The final assertion: forcing CoW must have unshared more than
   * `target - slack` pages. `None` is the `KeyError` of a missing counter.
   */
  function CowForced(before: map<string, nat>, after: map<string, nat>, target: int, slack: int): (r: Option<bool>)
    ensures r.None? <==> Unshared(before).None? || Unshared(after).None?
    ensures r == Some(true) <==>
      && Unshared(before).Some? && Unshared(after).Some?
      && Unshared(after).value - Unshared(before).value > target - slack
  {
    match (Unshared(before), Unshared(after))
    case (Some(b), Some(a)) => Some(a - b > target - slack)
    case _ => None
  }

  /** With a 200-page target and a 32-page slack, 150 pages unshared fail the check and 170 pass it. */
  lemma CowForcedExamples()
    ensures CowForced(map["sh_cow" := 10, "sh_un" := 0], map["sh_cow" := 100, "sh_un" := 60], 200, 32) == Some(false)
    ensures CowForced(map["sh_cow" := 10, "sh_un" := 0], map["sh_cow" := 120, "sh_un" := 60], 200, 32) == Some(true)
  {
  }

  /** The check after unpausing: copy-on-write has happened on the host. */
  function CowSeen(stats: map<string, nat>): (r: Option<bool>)
    ensures r.None? <==> "sh_cow" !in stats
    ensures r == Some(true) <==> "sh_cow" in stats && stats["sh_cow"] > 0
  {
    if "sh_cow" in stats then Some(stats["sh_cow"] > 0) else None
  }

  // ------------------------------------------------------------ the test

  /** The assertion (or exception) that ends a failed run of the test. */
  datatype Failure =
    | NeverColocated
    | GenerationMismatch
    | HoardFailed
    | StatsUnreadable
    | MissingCounter
    | DivisionByZero
    | TooLittleSharing
    | NoCow
    | TooLittleCow

  /** The outcome of the test: passed, with the clones deleted in clean-up, or failed. */
  datatype Verdict = Passed(deleted: seq<Clone>) | Failed(failure: Failure)

  /**
   * What the test observes from outside the host layer: the placements
   * in launch order, whether each full hoard succeeds, whether the sharing
   * ratio is high enough for a given resident and allocated count (a float
   * comparison), the whole part of 90% of the maximum memory, and the four
   * readings of the generation's vmsfs counters.
   */
  datatype Observations = Observations(
    launches: seq<Clone>,
    hoards: Clone -> bool,
    ratioHigh: (nat, nat) -> bool,
    ninety: int,
    sharedStats: Option<map<string, nat>>,
    unpausedStats: Option<map<string, nat>>,
    beforeCowStats: Option<map<string, nat>>,
    afterCowStats: Option<map<string, nat>>)

  /** The launched clones all report the generation of the last one. */
  predicate OneGeneration(ws: seq<Clone>)
  {
    ws != [] && AllOfGeneration(ws, ws[|ws| - 1].generation)
  }

  /** Every clone on the host of the last launch completed its full hoard. */
  predicate WinnersHoarded(ws: seq<Clone>, hoards: Clone -> bool)
  {
    ws != [] && forall c :: c in Bucket(ws, ws[|ws| - 1].host) ==> hoards(c)
  }

  /** The test got as far as the counters: a host colocated, on one generation, and its clones hoarded. */
  predicate ClonesReady(n: int, obs: Observations)
  {
    && FirstColocation(obs.launches, n).Some?
    && OneGeneration(WinningPrefix(obs.launches, n))
    && WinnersHoarded(WinningPrefix(obs.launches, n), obs.hoards)
  }

  /**
   * The sharing check passed: the reading has both counters, the
   * allocation is non-zero, and the resident/allocated ratio is high enough.
   */
  predicate RatioHolds(obs: Observations)
  {
    && obs.sharedStats.Some?
    && "cur_resident" in obs.sharedStats.value && "cur_allocated" in obs.sharedStats.value
    && obs.sharedStats.value["cur_allocated"] != 0
    && obs.ratioHigh(obs.sharedStats.value["cur_resident"], obs.sharedStats.value["cur_allocated"])
  }

  /** Copy-on-write was seen after unpausing, and writing the file forced enough of it. */
  predicate CowHolds(slack: int, obs: Observations)
  {
    && obs.unpausedStats.Some? && CowSeen(obs.unpausedStats.value) == Some(true)
    && obs.beforeCowStats.Some? && obs.afterCowStats.Some?
    && CowForced(obs.beforeCowStats.value, obs.afterCowStats.value, CowTarget(obs.ninety), slack) == Some(true)
  }

  /** The checks on the generation's counters after the hoard, in the test's order: the first that fails. */
  function CounterFailure(slack: int, obs: Observations): (r: Option<Failure>)
    ensures r.Some? ==> r.value in {StatsUnreadable, MissingCounter, DivisionByZero, TooLittleSharing, NoCow, TooLittleCow}
  {
    if obs.sharedStats.None? then Some(StatsUnreadable)
    else if "cur_resident" !in obs.sharedStats.value || "cur_allocated" !in obs.sharedStats.value then Some(MissingCounter)
    else if obs.sharedStats.value["cur_allocated"] == 0 then Some(DivisionByZero)
    else if !obs.ratioHigh(obs.sharedStats.value["cur_resident"], obs.sharedStats.value["cur_allocated"]) then Some(TooLittleSharing)
    else if obs.unpausedStats.None? then Some(StatsUnreadable)
    else if CowSeen(obs.unpausedStats.value).None? then Some(MissingCounter)
    else if !CowSeen(obs.unpausedStats.value).value then Some(NoCow)
    else if obs.beforeCowStats.None? then Some(StatsUnreadable)
    else if Unshared(obs.beforeCowStats.value).None? then Some(MissingCounter)
    else if obs.afterCowStats.None? then Some(StatsUnreadable)
    else match CowForced(obs.beforeCowStats.value, obs.afterCowStats.value, CowTarget(obs.ninety), slack)
      case None => Some(MissingCounter)
      case Some(forced) => if forced then None else Some(TooLittleCow)
  }

  /** What the test concludes from its observations. */
  function SharingOutcome(n: int, slack: int, obs: Observations): (v: Verdict)
    ensures v.Passed? ==> v.deleted != [] && v.deleted == WinningPrefix(obs.launches, n) && Colocates(v.deleted, n)
    ensures v.Passed? ==> CounterFailure(slack, obs).None?
  {
    if FirstColocation(obs.launches, n).None? then Failed(NeverColocated)
    else
      var ws := WinningPrefix(obs.launches, n);
      if !OneGeneration(ws) then Failed(GenerationMismatch)
      else if !WinnersHoarded(ws, obs.hoards) then Failed(HoardFailed)
      else match CounterFailure(slack, obs)
        case Some(f) => Failed(f)
        case None => Passed(ws)
  }

  /**
   * Which check the counters fail, if any: they pass exactly when the
   * sharing ratio and copy-on-write both hold; each failure names a check
   * that failed and every earlier one that passed.
   */
  lemma CounterChecks(slack: int, obs: Observations)
    ensures CounterFailure(slack, obs).None? <==> RatioHolds(obs) && CowHolds(slack, obs)
    ensures CounterFailure(slack, obs) == Some(StatsUnreadable) ==>
      obs.sharedStats.None? || obs.unpausedStats.None? || obs.beforeCowStats.None? || obs.afterCowStats.None?
    ensures CounterFailure(slack, obs) == Some(MissingCounter) ==>
      || (obs.sharedStats.Some? && ("cur_resident" !in obs.sharedStats.value || "cur_allocated" !in obs.sharedStats.value))
      || (obs.unpausedStats.Some? && "sh_cow" !in obs.unpausedStats.value)
      || (obs.beforeCowStats.Some? && Unshared(obs.beforeCowStats.value).None?)
      || (obs.afterCowStats.Some? && Unshared(obs.afterCowStats.value).None?)
    ensures CounterFailure(slack, obs) == Some(DivisionByZero) <==>
      && obs.sharedStats.Some? && "cur_resident" in obs.sharedStats.value && "cur_allocated" in obs.sharedStats.value
      && obs.sharedStats.value["cur_allocated"] == 0
    ensures CounterFailure(slack, obs) == Some(TooLittleSharing) <==>
      && obs.sharedStats.Some? && "cur_resident" in obs.sharedStats.value && "cur_allocated" in obs.sharedStats.value
      && obs.sharedStats.value["cur_allocated"] != 0
      && !obs.ratioHigh(obs.sharedStats.value["cur_resident"], obs.sharedStats.value["cur_allocated"])
    ensures CounterFailure(slack, obs) == Some(NoCow) <==>
      RatioHolds(obs) && obs.unpausedStats.Some? && CowSeen(obs.unpausedStats.value) == Some(false)
    ensures CounterFailure(slack, obs) == Some(TooLittleCow) <==>
      && RatioHolds(obs) && obs.unpausedStats.Some? && CowSeen(obs.unpausedStats.value) == Some(true)
      && obs.beforeCowStats.Some? && obs.afterCowStats.Some?
      && CowForced(obs.beforeCowStats.value, obs.afterCowStats.value, CowTarget(obs.ninety), slack) == Some(false)
    ensures CounterFailure(slack, obs) !in {Some(NeverColocated), Some(GenerationMismatch), Some(HoardFailed)}
  {
  }

  /**
   * The first phase of `test_sharing`: launch until a host holds `n`
   * clones, check that every launched clone reports one generation, and
   * make the clones on that host hoard. No failure means the clones are
   * ready, and `clonelist` is then the launches up to the first
   * colocation.
   */
  method PrepareClones(n: int, obs: Observations) returns (clonelist: seq<Clone>, failure: Option<Failure>)
    ensures failure.None? <==> ClonesReady(n, obs)
    ensures failure.None? ==> clonelist == WinningPrefix(obs.launches, n)
    ensures failure == Some(NeverColocated) <==> FirstColocation(obs.launches, n).None?
    ensures failure == Some(GenerationMismatch) <==>
      FirstColocation(obs.launches, n).Some? && !OneGeneration(WinningPrefix(obs.launches, n))
    ensures failure.Some? ==> failure.value in {NeverColocated, GenerationMismatch, HoardFailed}
  {
    var hostdict, winner;
    clonelist, hostdict, winner := LaunchUntilColocated(obs.launches, n);
    if winner.None? {
      return clonelist, Some(NeverColocated);
    }
    FirstColocationUnique(obs.launches, n, |clonelist|);
    assert WinningPrefix(obs.launches, n) == clonelist;
    var agree := GenerationsAgree(clonelist);
    if !agree {
      assert !OneGeneration(clonelist);
      return clonelist, Some(GenerationMismatch);
    }
    var sharingclones := hostdict[winner.value].1;
    assert sharingclones == Bucket(clonelist, clonelist[|clonelist| - 1].host);
    for i := 0 to |sharingclones|
      invariant forall k :: 0 <= k < i ==> obs.hoards(sharingclones[k])
    {
      if !obs.hoards(sharingclones[i]) {
        assert !WinnersHoarded(clonelist, obs.hoards);
        return clonelist, Some(HoardFailed);
      }
    }
    return clonelist, None;
  }

  /**
   * The second phase of `test_sharing`: the checks on the generation's
   * counters, in order, stopping at the first assertion or exception.
   */
  method CheckCounters(slack: int, obs: Observations) returns (failure: Option<Failure>)
    ensures failure == CounterFailure(slack, obs)
  {
    if obs.sharedStats.None? {
      return Some(StatsUnreadable);
    }
    var shared := obs.sharedStats.value;
    if "cur_resident" !in shared || "cur_allocated" !in shared {
      return Some(MissingCounter);
    }
    if shared["cur_allocated"] == 0 {
      return Some(DivisionByZero);
    }
    if !obs.ratioHigh(shared["cur_resident"], shared["cur_allocated"]) {
      return Some(TooLittleSharing);
    }
    if obs.unpausedStats.None? {
      return Some(StatsUnreadable);
    }
    var cowSeen := CowSeen(obs.unpausedStats.value);
    if cowSeen.None? {
      return Some(MissingCounter);
    }
    if !cowSeen.value {
      return Some(NoCow);
    }
    var target := CowTarget(obs.ninety);
    if obs.beforeCowStats.None? {
      return Some(StatsUnreadable);
    }
    if Unshared(obs.beforeCowStats.value).None? {
      return Some(MissingCounter);
    }
    if obs.afterCowStats.None? {
      return Some(StatsUnreadable);
    }
    var forced := CowForced(obs.beforeCowStats.value, obs.afterCowStats.value, target, slack);
    if forced.None? {
      return Some(MissingCounter);
    }
    if !forced.value {
      return Some(TooLittleCow);
    }
    return None;
  }

  /**
   * What the test concludes: it passes exactly when a host colocated `n`
   * clones, all of one generation, that all hoarded, and the counters
   * showed enough sharing and enough copy-on-write; then the launches up
   * to the first colocation are deleted. Each failure names the check that
   * failed, after every earlier check passed.
   */
  lemma SharingOutcomeMeaning(n: int, slack: int, obs: Observations)
    ensures var v := SharingOutcome(n, slack, obs);
      && (v == Failed(NeverColocated) <==> NoneColocated(obs.launches, |obs.launches|, n))
      && (v == Failed(GenerationMismatch) <==>
            FirstColocation(obs.launches, n).Some? && !OneGeneration(WinningPrefix(obs.launches, n)))
      && (v == Failed(HoardFailed) <==>
            && FirstColocation(obs.launches, n).Some? && OneGeneration(WinningPrefix(obs.launches, n))
            && !WinnersHoarded(WinningPrefix(obs.launches, n), obs.hoards))
      && (v.Passed? <==> ClonesReady(n, obs) && RatioHolds(obs) && CowHolds(slack, obs))
      && (v.Passed? ==> v.deleted == WinningPrefix(obs.launches, n))
      && (v == Failed(DivisionByZero) <==> ClonesReady(n, obs) && CounterFailure(slack, obs) == Some(DivisionByZero))
      && (v == Failed(TooLittleSharing) <==> ClonesReady(n, obs) && CounterFailure(slack, obs) == Some(TooLittleSharing))
      && (v == Failed(NoCow) <==> ClonesReady(n, obs) && CounterFailure(slack, obs) == Some(NoCow))
      && (v == Failed(TooLittleCow) <==> ClonesReady(n, obs) && CounterFailure(slack, obs) == Some(TooLittleCow))
      && (v == Failed(MissingCounter) <==> ClonesReady(n, obs) && CounterFailure(slack, obs) == Some(MissingCounter))
      && (v == Failed(StatsUnreadable) <==> ClonesReady(n, obs) && CounterFailure(slack, obs) == Some(StatsUnreadable))
  {
    CounterChecks(slack, obs);
  }

  /**
   * `test_sharing` from the launch loop on, with the knobs already
   * clamped: `n` clones on one host, `slack` pages of CoW slack.
   */
  method TestSharing(n: int, slack: int, obs: Observations) returns (v: Verdict)
    ensures v == SharingOutcome(n, slack, obs)
    ensures v.Passed? ==>
      && |v.deleted| <= |obs.launches| && v.deleted == obs.launches[..|v.deleted|]
      && Colocates(v.deleted, n)
      && NoneColocated(obs.launches, |v.deleted| - 1, n)
      && AllOfGeneration(v.deleted, v.deleted[|v.deleted| - 1].generation)
      && (forall c :: c in Bucket(v.deleted, v.deleted[|v.deleted| - 1].host) ==> obs.hoards(c))
      && RatioHolds(obs)
      && obs.unpausedStats.Some? && CowSeen(obs.unpausedStats.value) == Some(true)
      && obs.beforeCowStats.Some? && obs.afterCowStats.Some?
      && CowForced(obs.beforeCowStats.value, obs.afterCowStats.value, CowTarget(obs.ninety), slack) == Some(true)
    ensures ClonesReady(n, obs) && RatioHolds(obs) && CowHolds(slack, obs) ==> v == Passed(WinningPrefix(obs.launches, n))
    ensures v == Failed(NeverColocated) <==> NoneColocated(obs.launches, |obs.launches|, n)
    ensures v == Failed(GenerationMismatch) <==>
      FirstColocation(obs.launches, n).Some? && !OneGeneration(WinningPrefix(obs.launches, n))
    ensures v == Failed(HoardFailed) <==>
      && FirstColocation(obs.launches, n).Some? && OneGeneration(WinningPrefix(obs.launches, n))
      && !WinnersHoarded(WinningPrefix(obs.launches, n), obs.hoards)
    ensures v == Failed(DivisionByZero) <==>
      && ClonesReady(n, obs) && obs.sharedStats.Some?
      && "cur_resident" in obs.sharedStats.value && "cur_allocated" in obs.sharedStats.value
      && obs.sharedStats.value["cur_allocated"] == 0
    ensures v == Failed(TooLittleSharing) <==>
      && ClonesReady(n, obs) && obs.sharedStats.Some?
      && "cur_resident" in obs.sharedStats.value && "cur_allocated" in obs.sharedStats.value
      && obs.sharedStats.value["cur_allocated"] != 0
      && !obs.ratioHigh(obs.sharedStats.value["cur_resident"], obs.sharedStats.value["cur_allocated"])
    ensures v == Failed(NoCow) <==>
      ClonesReady(n, obs) && RatioHolds(obs) && obs.unpausedStats.Some? && CowSeen(obs.unpausedStats.value) == Some(false)
    ensures v == Failed(TooLittleCow) <==>
      && ClonesReady(n, obs) && RatioHolds(obs)
      && obs.unpausedStats.Some? && CowSeen(obs.unpausedStats.value) == Some(true)
      && obs.beforeCowStats.Some? && obs.afterCowStats.Some?
      && CowForced(obs.beforeCowStats.value, obs.afterCowStats.value, CowTarget(obs.ninety), slack) == Some(false)
    ensures v == Failed(MissingCounter) ==>
      && ClonesReady(n, obs)
      && (|| (obs.sharedStats.Some? && ("cur_resident" !in obs.sharedStats.value || "cur_allocated" !in obs.sharedStats.value))
          || (obs.unpausedStats.Some? && "sh_cow" !in obs.unpausedStats.value)
          || (obs.beforeCowStats.Some? && Unshared(obs.beforeCowStats.value).None?)
          || (obs.afterCowStats.Some? && Unshared(obs.afterCowStats.value).None?))
    ensures v == Failed(StatsUnreadable) ==>
      && ClonesReady(n, obs)
      && (obs.sharedStats.None? || obs.unpausedStats.None? || obs.beforeCowStats.None? || obs.afterCowStats.None?)
  {
    var clonelist, failure := PrepareClones(n, obs);
    if failure.None? {
      failure := CheckCounters(slack, obs);
    }
    v := if failure.Some? then Failed(failure.value) else Passed(clonelist);
    SharingOutcomeMeaning(n, slack, obs);
    CounterChecks(slack, obs);
  }
}
