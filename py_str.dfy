/**
 * The three Python `str` operations the lyrics scraper is built on:
 * `s.strip()`, `s.split('\n')` and `'\n'.join(lines)`.
 *
 * Strings are sequences of Unicode scalar values. `IsSpace` is the set of
 * characters for which Python 3's `str.isspace()` holds, which is what
 * `str.strip()` with no argument removes.
 */
module PyStr {

  type String = seq<char>

  const Newline: char := '\n'

  /** Python 3 `str.isspace()` for one character. */
  predicate IsSpace(c: char) {
    || ('\t' <= c <= '\r')               // \t \n \x0b \x0c \r
    || ('\U{1c}' <= c <= '\U{1f}')       // file, group, record and unit separators
    || c == ' '
    || c == '\U{85}' || c == '\U{a0}' || c == '\U{1680}'
    || ('\U{2000}' <= c <= '\U{200a}')
    || c == '\U{2028}' || c == '\U{2029}' || c == '\U{202f}' || c == '\U{205f}'
    || c == '\U{3000}'
  }

  /** Every character of `s` is whitespace (the empty string included). */
  predicate IsBlank(s: String) {
    forall k :: 0 <= k < |s| ==> IsSpace(s[k])
  }

  /** `s` neither starts nor ends with whitespace: `s.strip() == s`. */
  predicate IsStripped(s: String) {
    s == [] || (!IsSpace(s[0]) && !IsSpace(s[|s| - 1]))
  }

  /** The string contains no newline character. */
  predicate IsLine(s: String) {
    Newline !in s
  }

  /** `s.lstrip()`: `s` without its leading whitespace. */
  function TrimLeft(s: String): (r: String)
    ensures |r| <= |s|
    ensures r == [] || !IsSpace(r[0])
  {
    if |s| > 0 && IsSpace(s[0]) then TrimLeft(s[1..]) else s
  }

  /** `s.rstrip()`: `s` without its trailing whitespace. */
  function TrimRight(s: String): (r: String)
    ensures |r| <= |s|
    ensures r == [] || !IsSpace(r[|r| - 1])
    ensures r != [] ==> r[0] == s[0]
  {
    if |s| > 0 && IsSpace(s[|s| - 1]) then TrimRight(s[..|s| - 1]) else s
  }

  /** `s.strip()`. */
  function Strip(s: String): (r: String)
    ensures IsStripped(r)
    ensures |r| <= |s|
  {
    TrimRight(TrimLeft(s))
  }

  /** `lstrip` removes a prefix of `s`, and that prefix is whitespace. */
  lemma {:induction false} TrimLeftSuffix(s: String)
    ensures TrimLeft(s) == s[|s| - |TrimLeft(s)|..]
    ensures IsBlank(s[..|s| - |TrimLeft(s)|])
  {
    if |s| > 0 && IsSpace(s[0]) {
      var tail := s[1..];
      TrimLeftSuffix(tail);
      var n := |s| - |TrimLeft(s)|;
      assert TrimLeft(s) == TrimLeft(tail);
      assert tail[n - 1..] == s[n..];
      forall k | 0 <= k < n ensures IsSpace(s[..n][k]) {
        if k == 0 { assert s[..n][0] == s[0]; } else { assert s[..n][k] == tail[..n - 1][k - 1]; }
      }
    } else {
      assert s[0..] == s;
    }
  }

  /** `rstrip` removes a suffix of `s`, and that suffix is whitespace. */
  lemma {:induction false} TrimRightPrefix(s: String)
    ensures TrimRight(s) == s[..|TrimRight(s)|]
    ensures IsBlank(s[|TrimRight(s)|..])
  {
    if |s| > 0 && IsSpace(s[|s| - 1]) {
      var init := s[..|s| - 1];
      TrimRightPrefix(init);
      var m := |TrimRight(s)|;
      assert TrimRight(s) == TrimRight(init);
      assert init[..m] == s[..m];
      forall k | 0 <= k < |s| - m ensures IsSpace(s[m..][k]) {
        if m + k < |s| - 1 { assert s[m..][k] == init[m..][k]; }
      }
    } else {
      assert s[..|s|] == s;
    }
  }

  /** `strip` gives the empty string exactly for a string of whitespace. */
  lemma {:induction false} StripEmpty(s: String)
    ensures Strip(s) == [] <==> IsBlank(s)
  {
    var i, j := StripSlice(s);
    if i == j {
      forall k | 0 <= k < |s| ensures IsSpace(s[k]) {
        if k < i { assert s[..i][k] == s[k]; } else { assert s[j..][k - j] == s[k]; }
      }
    } else {
      assert s[i..j][0] == s[i];
    }
  }

  /** `lstrip` of a blank string is empty. */
  lemma {:induction false} TrimLeftBlank(s: String)
    requires IsBlank(s)
    ensures TrimLeft(s) == []
  {
    if |s| > 0 {
      assert IsSpace(s[0]);
      TrimLeftBlank(s[1..]);
    }
  }

  /** `lstrip` stops at the first non-space character. */
  lemma {:induction false} TrimLeftAt(s: String, i: nat)
    requires i < |s| && IsBlank(s[..i]) && !IsSpace(s[i])
    ensures TrimLeft(s) == s[i..]
  {
    if i > 0 {
      assert s[..i][0] == s[0];
      assert s[1..][..i - 1] == s[..i][1..];
      TrimLeftAt(s[1..], i - 1);
      assert s[1..][i - 1..] == s[i..];
    }
  }

  /** `rstrip` stops after the last non-space character. */
  lemma {:induction false} TrimRightAt(t: String, k: nat)
    requires 0 < k <= |t| && IsBlank(t[k..]) && !IsSpace(t[k - 1])
    ensures TrimRight(t) == t[..k]
    decreases |t|
  {
    if k < |t| {
      assert t[k..][|t| - 1 - k] == t[|t| - 1];
      var init := t[..|t| - 1];
      assert init[k..] == t[k..][..|t| - 1 - k];
      TrimRightAt(init, k);
      assert init[..k] == t[..k];
    }
  }

  /** `s.strip()` is a middle slice of `s` whose margins are blank. */
  lemma {:induction false} StripSlice(s: String) returns (i: nat, j: nat)
    ensures i <= j <= |s|
    ensures Strip(s) == s[i..j]
    ensures IsBlank(s[..i]) && IsBlank(s[j..])
  {
    var left := TrimLeft(s);
    i := |s| - |left|;
    assert left == s[i..] && IsBlank(s[..i]) by {
      TrimLeftSuffix(s);
    }
    var m := |TrimRight(left)|;
    assert TrimRight(left) == left[..m] && IsBlank(left[m..]) by {
      TrimRightPrefix(left);
    }
    j := i + m;
    assert s[i..][..m] == s[i..j] && s[i..][m..] == s[j..];
  }

  /**
   * Independent characterisation of `strip`: any split of `s` into a blank
   * prefix, a stripped middle and a blank suffix has `Strip(s)` as middle.
   */
  lemma {:induction false} StripUnique(s: String, i: nat, j: nat)
    requires i <= j <= |s|
    requires IsBlank(s[..i]) && IsBlank(s[j..])
    requires IsStripped(s[i..j])
    ensures Strip(s) == s[i..j]
  {
    if i < j {
      StripUniqueNonEmpty(s, i, j);
    } else {
      assert IsBlank(s) by {
        forall k | 0 <= k < |s| ensures IsSpace(s[k]) {
          if k < i { assert s[..i][k] == s[k]; } else { assert s[j..][k - j] == s[k]; }
        }
      }
      TrimLeftBlank(s);
    }
  }

  lemma {:induction false} StripUniqueNonEmpty(s: String, i: nat, j: nat)
    requires i < j <= |s|
    requires IsBlank(s[..i]) && IsBlank(s[j..])
    requires !IsSpace(s[i]) && !IsSpace(s[j - 1])
    ensures Strip(s) == s[i..j]
  {
    var left := s[i..];
    assert TrimLeft(s) == left by {
      TrimLeftAt(s, i);
    }
    assert TrimRight(left) == s[i..j] by {
      assert left[j - i..] == s[j..];
      assert left[j - i - 1] == s[j - 1];
      TrimRightAt(left, j - i);
      assert left[..j - i] == s[i..j];
    }
  }

  /** Leading whitespace does not survive `strip`. */
  lemma {:induction false} StripSpacePrefix(c: char, t: String)
    requires IsSpace(c)
    ensures Strip([c] + t) == Strip(t)
  {
    assert ([c] + t)[1..] == t;
  }

  /** Trailing whitespace does not survive `strip`. */
  lemma {:induction false} StripSpaceSuffix(t: String, c: char)
    requires IsSpace(c)
    ensures Strip(t + [c]) == Strip(t)
  {
    var s := t + [c];
    var i, j := StripSlice(t);
    assert s[i..j] == t[i..j];
    assert s[..i] == t[..i];
    assert s[j..] == t[j..] + [c];
    StripUnique(s, i, j);
  }

  /** A stripped string is its own `strip`. */
  lemma {:induction false} StripStripped(s: String)
    requires IsStripped(s)
    ensures Strip(s) == s
  {
    assert s[..0] == [] && s[|s|..] == [] && s[0..|s|] == s;
    StripUnique(s, 0, |s|);
  }

  /** `strip` keeps only characters of its input: a line stays a line. */
  lemma {:induction false} StripLine(s: String)
    requires IsLine(s)
    ensures IsLine(Strip(s))
  {
    var i, j := StripSlice(s);
    forall k | 0 <= k < j - i ensures s[i..j][k] != Newline {
      assert s[i..j][k] == s[i + k];
    }
  }

  /** The pieces of `[c] + s`, given the pieces of `s`. */
  function Prepend(c: char, pieces: seq<String>): (r: seq<String>)
    requires |pieces| >= 1
    ensures |r| >= 1
  {
    if c == Newline then [[]] + pieces else [[c] + pieces[0]] + pieces[1..]
  }

  /** `s.split('\n')`: the newline-separated pieces of `s`, at least one. */
  function Split(s: String): (lines: seq<String>)
    ensures |lines| >= 1
  {
    if s == [] then [[]] else Prepend(s[0], Split(s[1..]))
  }

  /** No piece of a split holds a newline. */
  lemma {:induction false} SplitLines(s: String)
    ensures forall k :: 0 <= k < |Split(s)| ==> IsLine(Split(s)[k])
    decreases |s|
  {
    if s != [] {
      SplitLines(s[1..]);
      var rest := Split(s[1..]);
      if s[0] != Newline {
        var first := [s[0]] + rest[0];
        assert IsLine(first) by {
          forall k | 0 <= k < |first| ensures first[k] != Newline {
            if k > 0 { assert first[k] == rest[0][k - 1]; assert rest[0][k - 1] in rest[0]; }
          }
        }
      }
    }
  }

  /** `'\n'.join(lines)`. */
  function Join(lines: seq<String>): (r: String)
    ensures |lines| > 0 ==> |r| >= |lines| - 1
    ensures |lines| > 0 ==> |lines[0]| <= |r| && r[..|lines[0]|] == lines[0]
  {
    if |lines| == 0 then []
    else if |lines| == 1 then lines[0]
    else lines[0] + [Newline] + Join(lines[1..])
  }

  /** One more leading character only affects the first pieces. */
  lemma {:induction false} PrependConcat(c: char, p: seq<String>, q: seq<String>)
    requires |p| >= 1
    ensures Prepend(c, p + q) == Prepend(c, p) + q
  {
    if c != Newline {
      assert (p + q)[0] == p[0];
      assert (p + q)[1..] == p[1..] + q;
    }
  }

  /** Splitting at a newline splits the two sides separately. */
  lemma {:induction false} SplitConcat(a: String, b: String)
    ensures Split(a + [Newline] + b) == Split(a) + Split(b)
  {
    var s := a + [Newline] + b;
    if a == [] {
      assert s[0] == Newline && s[1..] == b;
    } else {
      assert s[0] == a[0] && s[1..] == a[1..] + [Newline] + b;
      SplitConcat(a[1..], b);
      PrependConcat(a[0], Split(a[1..]), Split(b));
    }
  }

  /** A string without newlines splits into itself alone. */
  lemma {:induction false} SplitLine(a: String)
    requires IsLine(a)
    ensures Split(a) == [a]
  {
    if a != [] {
      assert IsLine(a[1..]) by {
        forall k | 0 <= k < |a| - 1 ensures a[1..][k] != Newline {
          assert a[1..][k] == a[k + 1];
        }
      }
      SplitLine(a[1..]);
      assert [a[0]] + a[1..] == a;
    }
  }

  /** Joining the pieces of `[c] + s` puts `c` in front of the joined pieces of `s`. */
  lemma {:induction false} JoinPrepend(c: char, p: seq<String>)
    requires |p| >= 1
    ensures Join(Prepend(c, p)) == [c] + Join(p)
  {
    var q := Prepend(c, p);
    if c == Newline {
      assert q[0] == [] && q[1..] == p;
    } else if |p| > 1 {
      assert q[0] == [c] + p[0] && q[1..] == p[1..];
    }
  }

  /** Round trip: joining the pieces of a split gives the string back. */
  lemma {:induction false} JoinSplit(s: String)
    ensures Join(Split(s)) == s
  {
    if s != [] {
      JoinSplit(s[1..]);
      JoinPrepend(s[0], Split(s[1..]));
      assert [s[0]] + s[1..] == s;
    }
  }

  /** Round trip: splitting a join of lines gives the lines back. */
  lemma {:induction false} SplitJoin(lines: seq<String>)
    requires |lines| >= 1
    requires forall k :: 0 <= k < |lines| ==> IsLine(lines[k])
    ensures Split(Join(lines)) == lines
  {
    if |lines| == 1 {
      SplitLine(lines[0]);
    } else {
      SplitJoin(lines[1..]);
      SplitConcat(lines[0], Join(lines[1..]));
      SplitLine(lines[0]);
      assert [lines[0]] + lines[1..] == lines;
    }
  }

  /** `pieces` with `c` appended to its last piece. */
  function GrowLast(pieces: seq<String>, c: char): (r: seq<String>)
    requires |pieces| >= 1
    ensures |r| == |pieces|
  {
    pieces[..|pieces| - 1] + [pieces[|pieces| - 1] + [c]]
  }

  /** Growing the last piece commutes with a new leading character. */
  lemma {:induction false} PrependGrowLast(d: char, p: seq<String>, c: char)
    requires |p| >= 1 && c != Newline
    ensures Prepend(d, GrowLast(p, c)) == GrowLast(Prepend(d, p), c)
  {
    var n := |p|;
    var g := GrowLast(p, c);
    if d == Newline {
      assert ([[]] + p)[..n] == [[]] + p[..n - 1];
    } else if n == 1 {
      assert g == [p[0] + [c]];
      assert [d] + (p[0] + [c]) == ([d] + p[0]) + [c];
    } else {
      assert g[0] == p[0] && g[1..] == p[1..n - 1] + [p[n - 1] + [c]];
      var q := [[d] + p[0]] + p[1..];
      assert q[..n - 1] == [[d] + p[0]] + p[1..n - 1];
      assert q[n - 1] == p[n - 1];
    }
  }

  /** Appending a non-newline character extends the last piece of a split. */
  lemma {:induction false} SplitAppend(t: String, c: char)
    requires c != Newline
    ensures Split(t + [c]) == GrowLast(Split(t), c)
  {
    var s := t + [c];
    if t == [] {
      var empty: String := [];
      assert s == [c] && s[1..] == empty;
      assert Split(t) == [empty] && Split(s[1..]) == [empty];
      assert [c] + empty == [c] && empty + [c] == [c];
      assert Split(s) == [[c]] by {
        assert Prepend(c, [empty]) == [[c] + empty] + [empty][1..];
        assert [empty][1..] == [];
      }
      assert GrowLast([empty], c) == [empty][..0] + [empty + [c]];
    } else {
      assert s[0] == t[0] && s[1..] == t[1..] + [c];
      SplitAppend(t[1..], c);
      PrependGrowLast(t[0], Split(t[1..]), c);
    }
  }
}
