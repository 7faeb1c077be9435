/**
 * The pieces of Python 2 `str` behaviour the host layer relies on: `strip()`,
 * `split(sep)`, `split()`, `sep.join(...)`, the `in` substring test, and the
 * ordering that `list.sort()` applies to strings.
 */
module Text {

  /** Whitespace as Python 2's `str.strip()` and `str.split()` see it. */
  predicate IsSpace(c: char) {
    c == ' ' || c == '\t' || c == '\n' || c == '\r' || c as int == 11 || c as int == 12
  }

  predicate NoSpace(s: string) {
    forall i :: 0 <= i < |s| ==> !IsSpace(s[i])
  }

  /** Number of leading whitespace characters. */
  function LeadingSpaces(s: string): (n: nat)
    ensures n <= |s|
    ensures forall i :: 0 <= i < n ==> IsSpace(s[i])
    ensures n < |s| ==> !IsSpace(s[n])
  {
    if s != [] && IsSpace(s[0]) then 1 + LeadingSpaces(s[1..]) else 0
  }

  /** Number of trailing whitespace characters. */
  function TrailingSpaces(s: string): (n: nat)
    ensures n <= |s|
    ensures forall i :: |s| - n <= i < |s| ==> IsSpace(s[i])
    ensures n < |s| ==> !IsSpace(s[|s| - 1 - n])
  {
    if s != [] && IsSpace(s[|s| - 1]) then 1 + TrailingSpaces(s[..|s| - 1]) else 0
  }

  /** Length of the leading run of non-whitespace characters. */
  function WordLength(s: string): (n: nat)
    ensures n <= |s|
    ensures forall i :: 0 <= i < n ==> !IsSpace(s[i])
    ensures n < |s| ==> IsSpace(s[n])
  {
    if s != [] && !IsSpace(s[0]) then 1 + WordLength(s[1..]) else 0
  }

  /**
   * Python's `s.strip()`: the text between the leading and the trailing
   * whitespace. It is empty exactly when `s` is all whitespace, and
   * otherwise begins and ends with a non-whitespace character.
   */
  function Strip(s: string): (r: string)
    ensures |r| <= |s|
    ensures r == [] <==> forall i :: 0 <= i < |s| ==> IsSpace(s[i])
    ensures r != [] ==> !IsSpace(r[0]) && !IsSpace(r[|r| - 1])
    ensures LeadingSpaces(s) + |r| <= |s| && r == s[LeadingSpaces(s)..LeadingSpaces(s) + |r|]
    ensures forall i :: LeadingSpaces(s) + |r| <= i < |s| ==> IsSpace(s[i])
  {
    var a := LeadingSpaces(s);
    var t := s[a..];
    var r := t[..|t| - TrailingSpaces(t)];
    assert a < |s| ==> r != [] && r[0] == s[a];
    r
  }

  /** Text that neither begins nor ends with whitespace is its own `strip()`. */
  lemma StripTrimmed(s: string)
    requires s != [] && !IsSpace(s[0]) && !IsSpace(s[|s| - 1])
    ensures Strip(s) == s
  {
    assert s[0..] == s;
  }

  /** Stripping twice is stripping once. */
  lemma StripIdempotent(s: string)
    ensures Strip(Strip(s)) == Strip(s)
  {
    if Strip(s) != [] {
      StripTrimmed(Strip(s));
    }
  }

  /**
   * Python's `s.split(sep)` for a one-character separator: the pieces
   * between separators, empty pieces included, so there is always one more
   * piece than there are separators.
   */
  function Split(s: string, sep: char): (ps: seq<string>)
    ensures |ps| >= 1
    ensures forall i :: 0 <= i < |ps| ==> sep !in ps[i]
    decreases |s|
  {
    if s == [] then [[]]
    else
      var rest := Split(s[1..], sep);
      if s[0] == sep then [[]] + rest
      else [[s[0]] + rest[0]] + rest[1..]
  }

  /** Python's `sep.join(ps)`. */
  function Join(ps: seq<string>, sep: string): string
  {
    if ps == [] then []
    else if |ps| == 1 then ps[0]
    else ps[0] + sep + Join(ps[1..], sep)
  }

  /** Splitting and re-joining with the same separator gives back the text. */
  lemma {:induction false} JoinSplit(s: string, sep: char)
    ensures Join(Split(s, sep), [sep]) == s
    decreases |s|
  {
    if s != [] {
      var rest := Split(s[1..], sep);
      JoinSplit(s[1..], sep);
      if s[0] == sep {
        assert Split(s, sep) == [[]] + rest;
      } else {
        var ps := Split(s, sep);
        assert ps == [[s[0]] + rest[0]] + rest[1..];
        if |rest| == 1 {
          assert Join(ps, [sep]) == [s[0]] + rest[0];
        } else {
          assert ps[1..] == rest[1..];
          assert Join(rest, [sep]) == rest[0] + [sep] + Join(rest[1..], [sep]);
        }
      }
    }
  }

  /** Text without the separator splits into itself, followed by whatever the rest splits into. */
  lemma {:induction false} SplitAfterPiece(w: string, t: string, sep: char)
    requires sep !in w
    ensures Split(w + t, sep) == [w + Split(t, sep)[0]] + Split(t, sep)[1..]
    decreases |w|
  {
    var r := Split(t, sep);
    if w != [] {
      SplitAfterPiece(w[1..], t, sep);
      assert (w + t)[1..] == w[1..] + t;
      assert (w + t)[0] == w[0];
      var rest := Split(w[1..] + t, sep);
      assert rest[0] == w[1..] + r[0] && rest[1..] == r[1..];
      assert [w[0]] + (w[1..] + r[0]) == w + r[0];
    } else {
      assert w + t == t;
      assert w + r[0] == r[0];
      assert [r[0]] + r[1..] == r;
    }
  }

  /** Joining separator-free pieces and splitting again gives back the pieces. */
  lemma {:induction false} SplitJoin(ps: seq<string>, sep: char)
    requires |ps| >= 1
    requires forall i :: 0 <= i < |ps| ==> sep !in ps[i]
    ensures Split(Join(ps, [sep]), sep) == ps
    decreases |ps|
  {
    if |ps| == 1 {
      SplitAfterPiece(ps[0], [], sep);
      assert ps[0] + [] == ps[0];
      assert Split([], sep) == [[]];
      assert Split(ps[0], sep) == [ps[0]];
      assert ps == [ps[0]];
    } else {
      var j := Join(ps[1..], [sep]);
      SplitJoin(ps[1..], sep);
      assert Join(ps, [sep]) == ps[0] + ([sep] + j);
      SplitAfterPiece(ps[0], [sep] + j, sep);
      assert ([sep] + j)[1..] == j;
      assert Split([sep] + j, sep) == [[]] + ps[1..];
      assert ps[0] + [] == ps[0];
      assert [ps[0]] + ps[1..] == ps;
    }
  }

  /** Python's `s.split()`: the maximal runs of non-whitespace characters. */
  function Tokens(s: string): (ts: seq<string>)
    ensures forall i :: 0 <= i < |ts| ==> ts[i] != [] && NoSpace(ts[i])
    decreases |s|
  {
    var a := LeadingSpaces(s);
    if a == |s| then []
    else
      var t := s[a..];
      var n := WordLength(t);
      [t[..n]] + Tokens(t[n..])
  }

  /** The non-whitespace characters of `s`, in order. */
  function NonSpace(s: string): string
  {
    if s == [] then [] else (if IsSpace(s[0]) then [] else [s[0]]) + NonSpace(s[1..])
  }

  /** The concatenation of a sequence of strings. */
  function Concat(ts: seq<string>): string
  {
    if ts == [] then [] else ts[0] + Concat(ts[1..])
  }

  lemma {:induction false} NonSpaceAppend(a: string, b: string)
    ensures NonSpace(a + b) == NonSpace(a) + NonSpace(b)
    decreases |a|
  {
    if a == [] {
      assert a + b == b;
    } else {
      assert (a + b)[1..] == a[1..] + b;
      NonSpaceAppend(a[1..], b);
    }
  }

  lemma {:induction false} NonSpaceOfSpaces(a: string)
    requires forall i :: 0 <= i < |a| ==> IsSpace(a[i])
    ensures NonSpace(a) == []
    decreases |a|
  {
    if a != [] {
      NonSpaceOfSpaces(a[1..]);
    }
  }

  lemma {:induction false} NonSpaceOfWord(a: string)
    requires NoSpace(a)
    ensures NonSpace(a) == a
    decreases |a|
  {
    if a != [] {
      NonSpaceOfWord(a[1..]);
    }
  }

  /**
   * `s.split()` loses only whitespace: its tokens, put back together, are
   * exactly the non-whitespace characters of `s` in their original order.
   */
  lemma {:induction false} TokensKeepNonSpace(s: string)
    ensures Concat(Tokens(s)) == NonSpace(s)
    decreases |s|
  {
    var a := LeadingSpaces(s);
    SpacesThenRest(s, a);
    if a < |s| {
      var t := s[a..];
      var n := WordLength(t);
      TokensKeepNonSpace(t[n..]);
      WordThenRest(t, n);
      assert Tokens(s) == [t[..n]] + Tokens(t[n..]);
      assert Concat(Tokens(s)) == t[..n] + Concat(Tokens(t[n..]));
    } else {
      assert s[a..] == [];
    }
  }

  lemma SpacesThenRest(s: string, a: nat)
    requires a <= |s| && forall i :: 0 <= i < a ==> IsSpace(s[i])
    ensures NonSpace(s) == NonSpace(s[a..])
  {
    assert s == s[..a] + s[a..];
    NonSpaceAppend(s[..a], s[a..]);
    NonSpaceOfSpaces(s[..a]);
  }

  lemma WordThenRest(t: string, n: nat)
    requires n <= |t| && forall i :: 0 <= i < n ==> !IsSpace(t[i])
    ensures NonSpace(t) == t[..n] + NonSpace(t[n..])
  {
    assert t == t[..n] + t[n..];
    NonSpaceAppend(t[..n], t[n..]);
    NonSpaceOfWord(t[..n]);
  }

  /** Leading whitespace does not change the tokens. */
  lemma {:induction false} TokensAfterSpace(c: char, s: string)
    requires IsSpace(c)
    ensures Tokens([c] + s) == Tokens(s)
  {
    var cs := [c] + s;
    assert cs[1..] == s;
    var a := LeadingSpaces(s);
    assert LeadingSpaces(cs) == 1 + a;
    if a < |s| {
      assert cs[1 + a..] == s[a..];
    }
  }

  /** Tokens separated by single spaces split back into the same tokens. */
  lemma {:induction false} TokensOfJoin(ts: seq<string>)
    requires forall i :: 0 <= i < |ts| ==> ts[i] != [] && NoSpace(ts[i])
    ensures Tokens(Join(ts, " ")) == ts
    decreases |ts|
  {
    if |ts| == 1 {
      TokensOfWordThen(ts[0], []);
      assert ts[0] + [] == ts[0];
    } else if |ts| > 1 {
      var j := Join(ts[1..], " ");
      TokensOfJoin(ts[1..]);
      assert Join(ts, " ") == ts[0] + ([' '] + j);
      TokensOfWordSpaceThen(ts[0], j);
      assert [ts[0]] + ts[1..] == ts;
    }
  }

  lemma TokensOfWordSpaceThen(w: string, j: string)
    requires w != [] && NoSpace(w)
    ensures Tokens(w + ([' '] + j)) == [w] + Tokens(j)
  {
    TokensOfWordThen(w, [' '] + j);
    TokensAfterSpace(' ', j);
  }

  /** A word followed by whitespace (or by nothing) is the first token. */
  lemma TokensOfWordThen(w: string, rest: string)
    requires w != [] && NoSpace(w)
    requires rest == [] || IsSpace(rest[0])
    ensures Tokens(w + rest) == [w] + Tokens(rest)
  {
    var s := w + rest;
    assert s[0] == w[0];
    assert LeadingSpaces(s) == 0;
    assert s[0..] == s;
    assert forall i :: 0 <= i < |w| ==> s[i] == w[i];
    assert |w| < |s| ==> s[|w|] == rest[0];
    assert WordLength(s) == |w|;
    assert s[|w|..] == rest;
    assert s[..|w|] == w;
  }

  /** `p` occurs in `s` starting at offset `i`. */
  predicate OccursAt(s: string, p: string, i: nat) {
    i + |p| <= |s| && s[i..i + |p|] == p
  }

  /**
   * Python's `p in s` on strings: `p` occurs in `s` at some offset (the
   * empty string occurs everywhere).
   */
  function Contains(s: string, p: string): (b: bool)
    ensures b <==> exists i: nat :: OccursAt(s, p, i)
    decreases |s|
  {
    if |p| > |s| then false
    else if s[..|p|] == p then (assert OccursAt(s, p, 0); true)
    else
      var b := Contains(s[1..], p);
      assert b ==> exists i: nat :: OccursAt(s, p, i) by {
        if b {
          var i: nat :| OccursAt(s[1..], p, i);
          assert s[1..][i..i + |p|] == s[i + 1..i + 1 + |p|];
          assert OccursAt(s, p, i + 1);
        }
      }
      assert (exists i: nat :: OccursAt(s, p, i)) ==> b by {
        if exists i: nat :: OccursAt(s, p, i) {
          var i: nat :| OccursAt(s, p, i);
          assert i != 0;
          assert s[1..][i - 1..i - 1 + |p|] == s[i..i + |p|];
          assert OccursAt(s[1..], p, i - 1);
        }
      }
      b
  }
}
