/**
 * The vmsfs statistics text: one `name: N -...` counter per line, read
 * into a map from counter name to value (`Host.get_vmsfs_stats`).
 */
module Stats {
  import opened Options
  import opened Text

  /** A character of the `[a-z_]` class. */
  predicate IsKeyChar(c: char) { ('a' <= c <= 'z') || c == '_' }

  /** A character of the `[0-9]` class. */
  predicate IsDigit(c: char) { '0' <= c <= '9' }

  predicate AllKeyChars(s: string) { forall i :: 0 <= i < |s| ==> IsKeyChar(s[i]) }

  predicate AllDigits(s: string) { forall i :: 0 <= i < |s| ==> IsDigit(s[i]) }

  /** Length of the leading run of `[a-z_]` characters. */
  function KeyLength(s: string): (n: nat)
    ensures n <= |s| && AllKeyChars(s[..n])
    ensures n < |s| ==> !IsKeyChar(s[n])
  {
    if s != [] && IsKeyChar(s[0]) then
      var n := 1 + KeyLength(s[1..]);
      assert forall i :: 1 <= i < n ==> s[..n][i] == s[1..][..n - 1][i - 1];
      n
    else 0
  }

  /** Length of the leading run of `[0-9]` characters. */
  function DigitLength(s: string): (n: nat)
    ensures n <= |s| && AllDigits(s[..n])
    ensures n < |s| ==> !IsDigit(s[n])
  {
    if s != [] && IsDigit(s[0]) then
      var n := 1 + DigitLength(s[1..]);
      assert forall i :: 1 <= i < n ==> s[..n][i] == s[1..][..n - 1][i - 1];
      n
    else 0
  }

  function DigitValue(c: char): nat
    requires IsDigit(c)
  {
    (c as int) - ('0' as int)
  }

  /** Python's `long(ds)` for a non-empty string of decimal digits. */
  function DecimalValue(ds: string): nat
    requires AllDigits(ds)
  {
    if ds == [] then 0 else 10 * DecimalValue(ds[..|ds| - 1]) + DigitValue(ds[|ds| - 1])
  }

  /** The decimal digits of `n`, without leading zeros (Python's `str(n)`). */
  function DecimalString(n: nat): (ds: string)
    ensures ds != [] && AllDigits(ds)
  {
    var d := ['0' + ((n % 10) as char)];
    if n < 10 then d else DecimalString(n / 10) + d
  }

  /** Reading back the decimal digits of a number gives the number. */
  lemma {:induction false} DecimalRoundTrip(n: nat)
    ensures DecimalValue(DecimalString(n)) == n
  {
    var ds := DecimalString(n);
    if n >= 10 {
      DecimalRoundTrip(n / 10);
      assert ds[..|ds| - 1] == DecimalString(n / 10);
    }
  }

  /**
   * `line` begins with what the pattern `([a-z_]+): ([0-9]+) -` accepts,
   * with `key` and `digits` as its two groups.
   */
  predicate StatLineShape(line: string, key: string, digits: string) {
    && key != [] && AllKeyChars(key)
    && digits != [] && AllDigits(digits)
    && key + ": " + digits + " -" <= line
  }

  /**
   * `re.match('([a-z_]+): ([0-9]+) -', line).groups()`, or `None` when the
   * match fails. The match is anchored at the start only, so whatever
   * follows ` -` is ignored.
   */
  function MatchGroups(line: string): (m: Option<(string, string)>)
    ensures m.Some? ==> StatLineShape(line, m.value.0, m.value.1)
  {
    var k := KeyLength(line);
    if k == 0 || |line| < k + 2 || line[k..k + 2] != ": " then None
    else
      var rest := line[k + 2..];
      var d := DigitLength(rest);
      if d == 0 || |rest| < d + 2 || rest[d..d + 2] != " -" then None
      else
        assert line[..k + 2 + d + 2] == line[..k] + ": " + rest[..d] + " -";
        Some((line[..k], rest[..d]))
  }

  lemma {:induction false} KeyLengthOfPrefix(line: string, key: string)
    requires AllKeyChars(key) && |key| < |line| && line[..|key|] == key && !IsKeyChar(line[|key|])
    ensures KeyLength(line) == |key|
    decreases |key|
  {
    if key != [] {
      assert line[0] == key[0];
      KeyLengthOfPrefix(line[1..], key[1..]);
    }
  }

  lemma {:induction false} DigitLengthOfPrefix(text: string, digits: string)
    requires AllDigits(digits) && |digits| < |text| && text[..|digits|] == digits && !IsDigit(text[|digits|])
    ensures DigitLength(text) == |digits|
    decreases |digits|
  {
    if digits != [] {
      assert text[0] == digits[0];
      DigitLengthOfPrefix(text[1..], digits[1..]);
    }
  }

  lemma KeyGroup(line: string, key: string, digits: string)
    requires StatLineShape(line, key, digits)
    ensures KeyLength(line) == |key| && line[..|key|] == key && line[|key|..|key| + 2] == ": "
  {
    var shape := key + ": " + digits + " -";
    assert shape[..|key|] == key && shape[|key|..|key| + 2] == ": ";
    assert line[..|key|] == key && line[|key|] == ':';
    KeyLengthOfPrefix(line, key);
  }

  lemma DigitGroup(rest: string, digits: string)
    requires digits != [] && AllDigits(digits) && digits + " -" <= rest
    ensures DigitLength(rest) == |digits| && rest[..|digits|] == digits && rest[|digits|..|digits| + 2] == " -"
  {
    var shape := digits + " -";
    assert shape[..|digits|] == digits && shape[|digits|..] == " -";
    assert rest[..|digits|] == digits && rest[|digits|] == ' ';
    DigitLengthOfPrefix(rest, digits);
  }

  /** The pattern's groups are determined by the line: whatever shape the line has, the match finds it. */
  lemma MatchGroupsComplete(line: string, key: string, digits: string)
    requires StatLineShape(line, key, digits)
    ensures MatchGroups(line) == Some((key, digits))
  {
    KeyGroup(line, key, digits);
    var rest := line[|key| + 2..];
    assert digits + " -" <= rest by {
      var shape := key + ": " + digits + " -";
      assert shape[|key| + 2..] == digits + " -";
    }
    DigitGroup(rest, digits);
  }

  /**
   * A line read as a counter: its name and the value of its digits. The
   * name is a run of key characters that the line begins with, followed
   * by `: `.
   */
  function ParseLine(line: string): (r: Option<(string, nat)>)
    ensures r.Some? <==> MatchGroups(line).Some?
    ensures r.Some? ==> r.value.0 != [] && AllKeyChars(r.value.0) && r.value.0 + ": " <= line
  {
    match MatchGroups(line)
    case None => None
    case Some((key, digits)) => Some((key, DecimalValue(digits)))
  }

  /** `[x.strip() for x in stdout.split('\n')]`. */
  function StrippedLines(stdout: string): (lines: seq<string>)
    ensures |lines| == |Split(stdout, '\n')|
    ensures forall i :: 0 <= i < |lines| ==> '\n' !in lines[i]
    ensures forall i :: 0 <= i < |lines| && lines[i] != [] ==>
      !IsSpace(lines[i][0]) && !IsSpace(lines[i][|lines[i]| - 1])
  {
    var ps := Split(stdout, '\n');
    seq(|ps|, i requires 0 <= i < |ps| => Strip(ps[i]))
  }

  /**
   * What the loop of `get_vmsfs_stats` computes from its lines: each line
   * in turn overwrites its key, and the first line that does not match
   * makes the whole read fail (the source dereferences the failed match).
   */
  function StatsOf(lines: seq<string>): Option<map<string, nat>>
  {
    if lines == [] then Some(map[])
    else
      match StatsOf(lines[..|lines| - 1])
      case None => None
      case Some(m) =>
        match ParseLine(lines[|lines| - 1])
        case None => None
        case Some((key, value)) => Some(m[key := value])
  }

  /** `get_vmsfs_stats` after the `cat`: the parse of the command's output. */
  method ParseStats(stdout: string) returns (stats: Option<map<string, nat>>)
    ensures stats == StatsOf(StrippedLines(stdout))
  {
    var lines := StrippedLines(stdout);
    var acc: map<string, nat> := map[];
    for i := 0 to |lines|
      invariant StatsOf(lines[..i]) == Some(acc)
    {
      StatsOfNextLine(lines, i, acc);
      var m := MatchGroups(lines[i]);
      if m.None? {
        StatsFailureSticks(lines[..i + 1], lines[i + 1..]);
        assert lines[..i + 1] + lines[i + 1..] == lines;
        return None;
      }
      var (key, value) := m.value;
      acc := acc[key := DecimalValue(value)];
    }
    assert lines[..|lines|] == lines;
    return Some(acc);
  }

  /** One more line read after a successful prefix. */
  lemma StatsOfNextLine(lines: seq<string>, i: nat, acc: map<string, nat>)
    requires i < |lines| && StatsOf(lines[..i]) == Some(acc)
    ensures MatchGroups(lines[i]).None? ==> StatsOf(lines[..i + 1]) == None
    ensures MatchGroups(lines[i]).Some? ==>
      StatsOf(lines[..i + 1]) == Some(acc[MatchGroups(lines[i]).value.0 := DecimalValue(MatchGroups(lines[i]).value.1)])
  {
    assert lines[..i + 1][..i] == lines[..i];
  }

  /** Once a line has failed, no later line can rescue the read. */
  lemma {:induction false} StatsFailureSticks(a: seq<string>, b: seq<string>)
    requires StatsOf(a) == None
    ensures StatsOf(a + b) == None
    decreases |b|
  {
    if b == [] {
      assert a + b == a;
    } else {
      var c := a + b;
      assert c[..|c| - 1] == a + b[..|b| - 1];
      StatsFailureSticks(a, b[..|b| - 1]);
    }
  }

  /** Line `i` holds a counter named `key`. */
  predicate KeyedAt(lines: seq<string>, i: int, key: string) {
    0 <= i < |lines| && ParseLine(lines[i]).Some? && ParseLine(lines[i]).value.0 == key
  }

  /** Line `i` is the last line holding a counter named `key`. */
  predicate LastKeyedAt(lines: seq<string>, i: int, key: string) {
    KeyedAt(lines, i, key) && forall j :: i < j < |lines| ==> !KeyedAt(lines, j, key)
  }

  /** The read fails exactly when some line does not have the counter shape. */
  lemma {:induction false} StatsFailIff(lines: seq<string>)
    ensures StatsOf(lines).None? <==> exists i :: 0 <= i < |lines| && ParseLine(lines[i]).None?
    decreases |lines|
  {
    if lines != [] {
      var n := |lines| - 1;
      var init := lines[..n];
      StatsFailIff(init);
      if StatsOf(init).None? {
        var i :| 0 <= i < |init| && ParseLine(init[i]).None?;
        assert lines[i] == init[i];
      } else if ParseLine(lines[n]).Some? {
        forall i | 0 <= i < |lines| ensures ParseLine(lines[i]).Some? {
          if i < n {
            assert lines[i] == init[i];
          }
        }
      }
    }
  }

  /** A successful read holds exactly the names that occur in its lines. */
  lemma {:induction false} StatsKeys(lines: seq<string>, m: map<string, nat>)
    requires StatsOf(lines) == Some(m)
    ensures forall key :: key in m <==> exists i :: KeyedAt(lines, i, key)
    decreases |lines|
  {
    if lines != [] {
      var n := |lines| - 1;
      var init := lines[..n];
      var m0 := StatsOf(init).value;
      StatsKeys(init, m0);
      forall key ensures key in m <==> exists i :: KeyedAt(lines, i, key) {
        StatsKeysStep(lines, init, m, m0, key);
      }
    }
  }

  lemma StatsKeysStep(lines: seq<string>, init: seq<string>, m: map<string, nat>, m0: map<string, nat>, key: string)
    requires lines != [] && init == lines[..|lines| - 1]
    requires StatsOf(lines) == Some(m) && StatsOf(init) == Some(m0)
    requires key in m0 <==> exists i :: KeyedAt(init, i, key)
    ensures key in m <==> exists i :: KeyedAt(lines, i, key)
  {
    var n := |lines| - 1;
    var (k, v) := ParseLine(lines[n]).value;
    assert m == m0[k := v];
    if key in m {
      StatsKeyFound(lines, init, m0, key, k);
    }
    if exists i :: KeyedAt(lines, i, key) {
      var i :| KeyedAt(lines, i, key);
      StatsKeyKept(lines, init, m0, key, k, i);
    }
  }

  /** A key of the new map was on the new last line or on an earlier line. */
  lemma StatsKeyFound(lines: seq<string>, init: seq<string>, m0: map<string, nat>, key: string, k: string)
    requires lines != [] && init == lines[..|lines| - 1]
    requires ParseLine(lines[|lines| - 1]).Some? && ParseLine(lines[|lines| - 1]).value.0 == k
    requires key in m0 <==> exists i :: KeyedAt(init, i, key)
    requires key == k || key in m0
    ensures exists i :: KeyedAt(lines, i, key)
  {
    if key == k {
      assert KeyedAt(lines, |lines| - 1, key);
    } else {
      var i :| KeyedAt(init, i, key);
      assert init[i] == lines[i];
      assert KeyedAt(lines, i, key);
    }
  }

  /** A key on some line is the new last line's key or was already in the map. */
  lemma StatsKeyKept(lines: seq<string>, init: seq<string>, m0: map<string, nat>, key: string, k: string, i: int)
    requires lines != [] && init == lines[..|lines| - 1]
    requires ParseLine(lines[|lines| - 1]).Some? && ParseLine(lines[|lines| - 1]).value.0 == k
    requires key in m0 <==> exists i :: KeyedAt(init, i, key)
    requires KeyedAt(lines, i, key)
    ensures key == k || key in m0
  {
    if i < |lines| - 1 {
      assert init[i] == lines[i];
      assert KeyedAt(init, i, key);
    }
  }

  /** In a successful read each name has the value of the LAST line that names it. */
  lemma {:induction false} StatsLastWins(lines: seq<string>, m: map<string, nat>, i: int, key: string)
    requires StatsOf(lines) == Some(m)
    requires LastKeyedAt(lines, i, key)
    ensures key in m && m[key] == ParseLine(lines[i]).value.1
    decreases |lines|
  {
    var n := |lines| - 1;
    if i < n {
      var init := lines[..n];
      var m0 := StatsOf(init).value;
      assert !KeyedAt(lines, n, key);
      assert forall j :: i < j < n ==> (KeyedAt(init, j, key) <==> KeyedAt(lines, j, key));
      assert KeyedAt(init, i, key);
      StatsLastWins(init, m0, i, key);
    }
  }

  /** The last piece of text that ends with the separator is empty. */
  lemma {:induction false} SplitEndsEmpty(s: string, sep: char)
    requires s != [] && s[|s| - 1] == sep
    ensures |Split(s, sep)| >= 2 && Split(s, sep)[|Split(s, sep)| - 1] == []
    decreases |s|
  {
    if |s| == 1 {
      assert s[1..] == [];
    } else {
      SplitEndsEmpty(s[1..], sep);
    }
  }

  /**
   * Output that ends in a newline never parses: the empty text after the
   * final newline is a line that does not match.
   */
  lemma TrailingNewlineFails(stdout: string)
    requires stdout != [] && stdout[|stdout| - 1] == '\n'
    ensures StatsOf(StrippedLines(stdout)) == None
  {
    SplitEndsEmpty(stdout, '\n');
    var lines := StrippedLines(stdout);
    assert lines[|lines| - 1] == Strip([]) == [];
    assert ParseLine([]).None?;
    StatsFailIff(lines);
  }

  /** A counter line as the kernel module writes it. */
  function FormatLine(key: string, value: nat, trailer: string): string
  {
    key + ": " + DecimalString(value) + " -" + trailer
  }

  /** Each well-formed counter line reads back as its name and value. */
  lemma ParseFormatLine(key: string, value: nat, trailer: string)
    requires key != [] && AllKeyChars(key)
    ensures ParseLine(FormatLine(key, value, trailer)) == Some((key, value))
  {
    var line := FormatLine(key, value, trailer);
    var ds := DecimalString(value);
    assert key + ": " + ds + " -" <= line;
    MatchGroupsComplete(line, key, ds);
    DecimalRoundTrip(value);
  }

  /** The counters of one stats text. */
  datatype Counter = Counter(key: string, value: nat, trailer: string)

  predicate WellFormed(c: Counter) {
    && c.key != [] && AllKeyChars(c.key)
    && '\n' !in c.trailer
    && (c.trailer == [] || !IsSpace(c.trailer[|c.trailer| - 1]))
  }

  function FormatAll(cs: seq<Counter>): (lines: seq<string>)
    ensures |lines| == |cs|
  {
    seq(|cs|, i requires 0 <= i < |cs| => FormatLine(cs[i].key, cs[i].value, cs[i].trailer))
  }

  /** The map the counters describe: later counters overwrite earlier ones. */
  function CounterMap(cs: seq<Counter>): map<string, nat>
  {
    if cs == [] then map[]
    else CounterMap(cs[..|cs| - 1])[cs[|cs| - 1].key := cs[|cs| - 1].value]
  }

  /** Counters written one per line read back as the map they describe. */
  lemma {:induction false} StatsOfFormatted(cs: seq<Counter>)
    requires forall i :: 0 <= i < |cs| ==> WellFormed(cs[i])
    ensures StatsOf(FormatAll(cs)) == Some(CounterMap(cs))
    decreases |cs|
  {
    if cs != [] {
      var n := |cs| - 1;
      var lines := FormatAll(cs);
      assert lines[..n] == FormatAll(cs[..n]);
      assert lines[n] == FormatLine(cs[n].key, cs[n].value, cs[n].trailer);
      StatsOfFormatted(cs[..n]);
      ParseFormatLine(cs[n].key, cs[n].value, cs[n].trailer);
    }
  }

  /**
   * Round trip: one or more counters written one per line, joined by
   * newlines with no newline after the last, read back as the map they
   * describe.
   */
  lemma StatsRoundTrip(cs: seq<Counter>)
    requires cs != []
    requires forall i :: 0 <= i < |cs| ==> WellFormed(cs[i])
    ensures StatsOf(StrippedLines(Join(FormatAll(cs), "\n"))) == Some(CounterMap(cs))
  {
    var lines := FormatAll(cs);
    forall i | 0 <= i < |lines| ensures '\n' !in lines[i] && Strip(lines[i]) == lines[i] {
      FormattedLineIsClean(cs[i]);
    }
    SplitJoin(lines, '\n');
    assert StrippedLines(Join(lines, "\n")) == lines;
    StatsOfFormatted(cs);
  }

  /** A counter line has no line break and no surrounding whitespace, so `strip()` keeps it whole. */
  lemma FormattedLineIsClean(c: Counter)
    requires WellFormed(c)
    ensures '\n' !in FormatLine(c.key, c.value, c.trailer)
    ensures Strip(FormatLine(c.key, c.value, c.trailer)) == FormatLine(c.key, c.value, c.trailer)
  {
    var ds := DecimalString(c.value);
    var middle := ": " + ds + " -";
    var line := FormatLine(c.key, c.value, c.trailer);
    assert line == c.key + middle + c.trailer;
    assert forall i :: 0 <= i < |c.key| ==> c.key[i] != '\n';
    assert forall i :: 0 <= i < |ds| ==> ds[i] != '\n';
    assert '\n' !in middle;
    assert line[0] == c.key[0];
    assert line[|line| - 1] == if c.trailer == [] then '-' else c.trailer[|c.trailer| - 1];
    StripTrimmed(line);
  }
}
