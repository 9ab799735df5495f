/**
 * The pure core of `LyricsScraper` (app/client/rapid_api.py): picking the
 * best song match out of a search response, accumulating the text of the
 * lyrics containers of a page, and cleaning the accumulated lyrics.
 *
 * The network requests and the HTML parsing are outside the model: a search
 * response arrives as a value of `SearchResults`, and a lyrics page arrives
 * as the already-extracted texts of its containers, one sequence for the
 * primary selector and one for the fallback selector.
 */
module LyricsScraper {
  import opened Wrappers
  import opened PyStr

  // ---------------------------------------------------------------------
  // Cleaning: __clean_lyrics
  // ---------------------------------------------------------------------

  /** Every string of the list is free of newlines. */
  predicate AllLines(lines: seq<String>) {
    forall k :: 0 <= k < |lines| ==> IsLine(lines[k])
  }

  /** Every string of the list is whitespace only. */
  predicate AllBlank(lines: seq<String>) {
    forall k :: 0 <= k < |lines| ==> IsBlank(lines[k])
  }

  /** Every string of the list is non-empty and has no surrounding whitespace. */
  predicate AllKeepable(lines: seq<String>) {
    forall k :: 0 <= k < |lines| ==> lines[k] != [] && IsStripped(lines[k])
  }

  /**
   * What the per-line loop of the cleaner collects: every line stripped,
   * the lines that are then empty dropped, the others kept in order.
   */
  function KeptLines(lines: seq<String>): (kept: seq<String>)
    ensures |kept| <= |lines|
  {
    if lines == [] then []
    else
      var init := KeptLines(lines[..|lines| - 1]);
      var line := Strip(lines[|lines| - 1]);
      if line == [] then init else init + [line]
  }

  /** No two newlines are adjacent. */
  predicate NoDoubleNewline(s: String) {
    forall k :: 0 <= k < |s| - 1 ==> !(s[k] == Newline && s[k + 1] == Newline)
  }

  /** No three newlines are adjacent. */
  predicate NoTripleNewline(s: String) {
    forall k :: 0 <= k < |s| - 2 ==> !(s[k] == Newline && s[k + 1] == Newline && s[k + 2] == Newline)
  }

  /** The length of the run of newlines that starts `s`. */
  function NewlineRun(s: String): (n: nat)
    ensures n <= |s|
    ensures forall k :: 0 <= k < n ==> s[k] == Newline
    ensures n < |s| ==> s[n] != Newline
  {
    if s != [] && s[0] == Newline then 1 + NewlineRun(s[1..]) else 0
  }

  /**
   * The regular-expression substitution of the pattern `\n{3,}` by two
   * newlines: scanning left to right, every maximal run of three or more
   * newlines becomes exactly two.
   */
  function CollapseNewlines(s: String): (r: String)
    ensures s == [] <==> r == []
    ensures s != [] ==> r[0] == s[0]
    decreases |s|
  {
    if s == [] then []
    else if s[0] != Newline then [s[0]] + CollapseNewlines(s[1..])
    else
      var n := NewlineRun(s);
      (if n >= 3 then [Newline, Newline] else s[..n]) + CollapseNewlines(s[n..])
  }

  /** `__clean_lyrics`, as one expression: split, strip and filter, join, collapse. */
  function Clean(lyrics: String): (cleaned: String) {
    CollapseNewlines(Join(KeptLines(Split(lyrics))))
  }

  /**
   * The text the cleaner promises: no two adjacent newlines, no newline at
   * either end, and (when not empty) every line non-empty and stripped.
   */
  predicate IsLyricsText(t: String) {
    && NoDoubleNewline(t)
    && (t != [] ==> t[0] != Newline && t[|t| - 1] != Newline)
    && (t != [] ==> AllKeepable(Split(t)))
  }

  /** The cleaning loop of `__clean_lyrics`. */
  method CleanLyrics(lyrics: String) returns (cleaned: String)
    ensures cleaned == Clean(lyrics)
    ensures IsLyricsText(cleaned)
    ensures cleaned == Join(KeptLines(Split(lyrics)))
  {
    var lines := Split(lyrics);
    var cleanedLines: seq<String> := [];
    for i := 0 to |lines|
      invariant cleanedLines == KeptLines(lines[..i])
    {
      var cleanedLine := Strip(lines[i]);
      if cleanedLine != [] {
        cleanedLines := cleanedLines + [cleanedLine];
      }
      assert lines[..i + 1][..i] == lines[..i];
    }
    assert lines[..|lines|] == lines;
    cleaned := Join(cleanedLines);
    cleaned := CollapseNewlines(cleaned);
    CleanSkipsCollapse(lyrics);
    CleanIsLyricsText(lyrics);
  }

  // Lemmas about the lines the loop keeps.

  /** Every kept line is non-empty and stripped. */
  lemma {:induction false} KeptLinesKeepable(lines: seq<String>)
    ensures AllKeepable(KeptLines(lines))
  {
    if lines != [] {
      KeptLinesKeepable(lines[..|lines| - 1]);
    }
  }

  /** The kept lines of a concatenation are the concatenation of the kept lines. */
  lemma {:induction false} KeptLinesConcat(a: seq<String>, b: seq<String>)
    ensures KeptLines(a + b) == KeptLines(a) + KeptLines(b)
    decreases |b|
  {
    if b == [] {
      assert a + b == a;
    } else {
      var init := b[..|b| - 1];
      assert (a + b)[..|a + b| - 1] == a + init;
      assert (a + b)[|a + b| - 1] == b[|b| - 1];
      KeptLinesConcat(a, init);
    }
  }

  /** Stripping keeps newline-free lines newline-free. */
  lemma {:induction false} KeptLinesAreLines(lines: seq<String>)
    requires AllLines(lines)
    ensures AllLines(KeptLines(lines))
  {
    if lines != [] {
      var init := lines[..|lines| - 1];
      assert AllLines(init) by {
        forall k | 0 <= k < |init| ensures IsLine(init[k]) { assert init[k] == lines[k]; }
      }
      KeptLinesAreLines(init);
      StripLine(lines[|lines| - 1]);
    }
  }

  /** A list of lines that are already non-empty and stripped is kept whole. */
  lemma {:induction false} KeptLinesOfKeepable(lines: seq<String>)
    requires AllKeepable(lines)
    ensures KeptLines(lines) == lines
  {
    if lines != [] {
      var init := lines[..|lines| - 1];
      assert AllKeepable(init) by {
        forall k | 0 <= k < |init| ensures init[k] != [] && IsStripped(init[k]) {
          assert init[k] == lines[k];
        }
      }
      var last := lines[|lines| - 1];
      assert last != [] && IsStripped(last);
      KeptLinesOfKeepable(init);
      StripStripped(last);
      assert KeptLines(lines) == KeptLines(init) + [last];
      assert init + [last] == lines;
    }
  }

  /** Nothing is kept exactly when every line is whitespace only. */
  lemma {:induction false} KeptLinesEmpty(lines: seq<String>)
    ensures KeptLines(lines) == [] <==> AllBlank(lines)
  {
    if lines != [] {
      var init := lines[..|lines| - 1];
      KeptLinesEmpty(init);
      StripEmpty(lines[|lines| - 1]);
      AllBlankSnoc(init, lines[|lines| - 1]);
      assert init + [lines[|lines| - 1]] == lines;
    }
  }

  // Lemmas about the collapsing substitution.

  /** The substitution changes nothing in a text with no two adjacent newlines. */
  lemma {:induction false} CollapseIdentity(s: String)
    requires NoDoubleNewline(s)
    ensures CollapseNewlines(s) == s
    decreases |s|
  {
    if s != [] {
      assert NoDoubleNewline(s[1..]) by {
        forall k | 0 <= k < |s[1..]| - 1
          ensures !(s[1..][k] == Newline && s[1..][k + 1] == Newline)
        {
          assert s[1..][k] == s[k + 1] && s[1..][k + 1] == s[k + 2];
        }
      }
      CollapseIdentity(s[1..]);
      if s[0] == Newline {
        assert |s| > 1 ==> s[1] != Newline;
        assert NewlineRun(s) == 1;
        assert s[..1] + s[1..] == s;
      } else {
        assert [s[0]] + s[1..] == s;
      }
    }
  }

  /** After the substitution no run of three newlines is left. */
  lemma {:induction false} CollapseNoTriple(s: String)
    ensures NoTripleNewline(CollapseNewlines(s))
    decreases |s|
  {
    if s != [] {
      var r := CollapseNewlines(s);
      if s[0] != Newline {
        var tail := CollapseNewlines(s[1..]);
        CollapseNoTriple(s[1..]);
        assert r == [s[0]] + tail;
        forall k | 0 <= k < |r| - 2
          ensures !(r[k] == Newline && r[k + 1] == Newline && r[k + 2] == Newline)
        {
          if k > 0 {
            assert r[k] == tail[k - 1] && r[k + 1] == tail[k] && r[k + 2] == tail[k + 1];
          }
        }
      } else {
        var n := NewlineRun(s);
        var head: String := if n >= 3 then [Newline, Newline] else s[..n];
        var tail := CollapseNewlines(s[n..]);
        CollapseNoTriple(s[n..]);
        assert r == head + tail;
        assert |head| <= 2;
        assert tail != [] ==> tail[0] != Newline;
        forall k | 0 <= k < |r| - 2
          ensures !(r[k] == Newline && r[k + 1] == Newline && r[k + 2] == Newline)
        {
          if k >= |head| {
            var m := k - |head|;
            assert r[k] == tail[m] && r[k + 1] == tail[m + 1] && r[k + 2] == tail[m + 2];
          } else if k + 1 == |head| {
            assert r[k + 1] == tail[0];
          } else {
            assert r[k + 2] == tail[2 - |head| + k];
          }
        }
      }
    }
  }

  /** `n` newlines. */
  function Newlines(n: nat): (r: String)
    ensures |r| == n
  {
    if n == 0 then [] else [Newline] + Newlines(n - 1)
  }

  /** The run of newlines at the front of `Newlines(n) + y` is the whole of `Newlines(n)`. */
  lemma {:induction false} NewlineRunOf(n: nat, y: String)
    requires y == [] || y[0] != Newline
    ensures NewlineRun(Newlines(n) + y) == n
  {
    if n > 0 {
      var s := Newlines(n) + y;
      assert s[0] == Newline && s[1..] == Newlines(n - 1) + y;
      NewlineRunOf(n - 1, y);
    } else {
      assert Newlines(n) + y == y;
    }
  }

  /**
   * What the substitution does, run by run: a maximal run of three or more
   * newlines becomes exactly two, and a run of one or two is kept as it is.
   */
  lemma {:induction false} CollapseRun(n: nat, y: String)
    requires y == [] || y[0] != Newline
    ensures CollapseNewlines(Newlines(n) + y)
      == (if n >= 3 then [Newline, Newline] else Newlines(n)) + CollapseNewlines(y)
  {
    var s := Newlines(n) + y;
    if n == 0 {
      assert s == y;
    } else {
      NewlineRunOf(n, y);
      assert s[0] == Newline;
      assert s[..n] == Newlines(n) && s[n..] == y;
    }
  }

  /** Any other character is copied by the substitution. */
  lemma {:induction false} CollapseOther(c: char, y: String)
    requires c != Newline
    ensures CollapseNewlines([c] + y) == [c] + CollapseNewlines(y)
  {
    assert ([c] + y)[0] == c && ([c] + y)[1..] == y;
  }

  // Lemmas about the joined text.

  /**
   * Joining non-empty newline-free lines gives a text with no two adjacent
   * newlines and no newline at either end, empty only for no lines.
   */
  lemma {:induction false} JoinKeepable(lines: seq<String>)
    requires AllKeepable(lines) && AllLines(lines)
    ensures NoDoubleNewline(Join(lines))
    ensures Join(lines) == [] <==> lines == []
    ensures Join(lines) != [] ==> Join(lines)[0] != Newline && Join(lines)[|Join(lines)| - 1] != Newline
  {
    if |lines| == 1 {
      var x := lines[0];
      assert IsLine(x);
      forall k | 0 <= k < |x| ensures x[k] != Newline { assert x[k] in x; }
    } else if |lines| > 1 {
      var x := lines[0];
      var rest := lines[1..];
      assert AllKeepable(rest) && AllLines(rest) by {
        forall k | 0 <= k < |rest| ensures rest[k] == lines[k + 1] { }
      }
      JoinKeepable(rest);
      var tail := Join(rest);
      var s := Join(lines);
      assert IsLine(x);
      assert s == x + [Newline] + tail;
      forall k | 0 <= k < |x| ensures x[k] != Newline { assert x[k] in x; }
      forall k | 0 <= k < |s| - 1 ensures !(s[k] == Newline && s[k + 1] == Newline) {
        if k < |x| {
          assert s[k] == x[k];
        } else if k == |x| {
          assert s[k + 1] == tail[0];
        } else {
          assert s[k] == tail[k - |x| - 1] && s[k + 1] == tail[k - |x|];
        }
      }
      assert s[|s| - 1] == tail[|tail| - 1];
    }
  }

  /** The kept lines of any input are newline-free as well as non-empty and stripped. */
  lemma {:induction false} KeptLinesOfSplit(lyrics: String)
    ensures AllLines(KeptLines(Split(lyrics)))
    ensures AllKeepable(KeptLines(Split(lyrics)))
  {
    SplitLines(lyrics);
    KeptLinesAreLines(Split(lyrics));
    KeptLinesKeepable(Split(lyrics));
  }

  // Lemmas about the cleaner.

  /**
   * The `\n{3,}` substitution is a no-op on the text the join produces:
   * the cleaner's result is the joined kept lines.
   */
  lemma {:induction false} CleanSkipsCollapse(lyrics: String)
    ensures Clean(lyrics) == Join(KeptLines(Split(lyrics)))
    ensures NoDoubleNewline(Clean(lyrics))
  {
    var kept := KeptLines(Split(lyrics));
    KeptLinesOfSplit(lyrics);
    JoinKeepable(kept);
    CollapseIdentity(Join(kept));
  }

  /**
   * The lines of the cleaned text are exactly the stripped, non-empty lines
   * of the input, in their original order.
   */
  lemma {:induction false} CleanLines(lyrics: String)
    ensures KeptLines(Split(lyrics)) != [] ==> Split(Clean(lyrics)) == KeptLines(Split(lyrics))
    ensures KeptLines(Split(lyrics)) == [] <==> Clean(lyrics) == []
  {
    var kept := KeptLines(Split(lyrics));
    CleanSkipsCollapse(lyrics);
    KeptLinesOfSplit(lyrics);
    JoinKeepable(kept);
    if kept != [] {
      SplitJoin(kept);
    }
  }

  /** The cleaner's output satisfies the lyrics-text invariant. */
  lemma {:induction false} CleanIsLyricsText(lyrics: String)
    ensures IsLyricsText(Clean(lyrics))
  {
    var kept := KeptLines(Split(lyrics));
    CleanSkipsCollapse(lyrics);
    CleanLines(lyrics);
    KeptLinesOfSplit(lyrics);
    JoinKeepable(kept);
  }

  /** Cleaning is idempotent. */
  lemma {:induction false} CleanIdempotent(lyrics: String)
    ensures Clean(Clean(lyrics)) == Clean(lyrics)
  {
    var kept := KeptLines(Split(lyrics));
    var once := Clean(lyrics);
    CleanLines(lyrics);
    KeptLinesOfSplit(lyrics);
    CleanSkipsCollapse(once);
    if kept == [] {
      var empty: String := [];
      assert Split(once) == [empty];
      assert KeptLines([empty]) == [];
    } else {
      KeptLinesOfKeepable(kept);
    }
  }

  lemma {:induction false} BlankCons(c: char, s: String)
    ensures IsBlank([c] + s) <==> IsSpace(c) && IsBlank(s)
  {
    var t := [c] + s;
    if IsSpace(c) && IsBlank(s) {
      forall k | 0 <= k < |t| ensures IsSpace(t[k]) {
        if k > 0 { assert t[k] == s[k - 1]; }
      }
    }
    if IsBlank(t) {
      assert t[0] == c;
      forall k | 0 <= k < |s| ensures IsSpace(s[k]) { assert s[k] == t[k + 1]; }
    }
  }

  lemma {:induction false} AllBlankCons(x: String, xs: seq<String>)
    ensures AllBlank([x] + xs) <==> IsBlank(x) && AllBlank(xs)
  {
    var t := [x] + xs;
    if IsBlank(x) && AllBlank(xs) {
      forall k | 0 <= k < |t| ensures IsBlank(t[k]) {
        if k > 0 { assert t[k] == xs[k - 1]; }
      }
    }
    if AllBlank(t) {
      assert t[0] == x;
      forall k | 0 <= k < |xs| ensures IsBlank(xs[k]) { assert xs[k] == t[k + 1]; }
    }
  }

  lemma {:induction false} AllBlankSnoc(xs: seq<String>, x: String)
    ensures AllBlank(xs + [x]) <==> AllBlank(xs) && IsBlank(x)
  {
    var t := xs + [x];
    if AllBlank(xs) && IsBlank(x) {
      forall k | 0 <= k < |t| ensures IsBlank(t[k]) {
        if k < |xs| { assert t[k] == xs[k]; }
      }
    }
    if AllBlank(t) {
      assert t[|xs|] == x;
      forall k | 0 <= k < |xs| ensures IsBlank(xs[k]) { assert xs[k] == t[k]; }
    }
  }

  /** A split piece list is all whitespace exactly when the string was. */
  lemma {:induction false} SplitBlank(s: String)
    ensures AllBlank(Split(s)) <==> IsBlank(s)
    decreases |s|
  {
    if s != [] {
      var rest := Split(s[1..]);
      SplitBlank(s[1..]);
      BlankCons(s[0], s[1..]);
      assert [s[0]] + s[1..] == s;
      if s[0] == Newline {
        AllBlankCons([], rest);
      } else {
        AllBlankCons([s[0]] + rest[0], rest[1..]);
        BlankCons(s[0], rest[0]);
        AllBlankCons(rest[0], rest[1..]);
        assert [rest[0]] + rest[1..] == rest;
      }
    }
  }

  /**
   * The cleaned text is empty exactly when every newline-separated line of
   * the input is whitespace only, that is, when the whole input is.
   */
  lemma {:induction false} CleanEmpty(lyrics: String)
    ensures Clean(lyrics) == [] <==> AllBlank(Split(lyrics))
    ensures Clean(lyrics) == [] <==> IsBlank(lyrics)
  {
    CleanLines(lyrics);
    KeptLinesEmpty(Split(lyrics));
    SplitBlank(lyrics);
  }

  // Leading and trailing whitespace does not change the kept lines.

  /** The kept lines of a single line. */
  lemma {:induction false} KeptLinesOne(x: String)
    ensures KeptLines([x]) == if Strip(x) == [] then [] else [Strip(x)]
  {
    assert [x][..0] == [];
  }

  lemma {:induction false} KeptLinesSpacePrefix(c: char, t: String)
    requires IsSpace(c)
    ensures KeptLines(Split([c] + t)) == KeptLines(Split(t))
  {
    var s := [c] + t;
    assert s[0] == c && s[1..] == t;
    if c == Newline {
      var empty: String := [];
      var rest := Split(t);
      assert Split(s) == [empty] + rest;
      KeptLinesConcat([empty], rest);
      KeptLinesOne(empty);
    } else {
      KeptLinesInnerSpacePrefix(c, t);
    }
  }

  lemma {:induction false} KeptLinesInnerSpacePrefix(c: char, t: String)
    requires IsSpace(c) && c != Newline
    ensures KeptLines(Split([c] + t)) == KeptLines(Split(t))
  {
    var rest := Split(t);
    assert KeptLines(Split([c] + t)) == KeptLines([[c] + rest[0]] + rest[1..]) by {
      var s := [c] + t;
      assert s[0] == c && s[1..] == t;
    }
    assert KeptLines(Split(t)) == KeptLines([rest[0]] + rest[1..]) by {
      assert [rest[0]] + rest[1..] == rest;
    }
    assert KeptLines([[c] + rest[0]] + rest[1..]) == KeptLines([rest[0]] + rest[1..]) by {
      StripSpacePrefix(c, rest[0]);
      KeptLinesConcat([[c] + rest[0]], rest[1..]);
      KeptLinesConcat([rest[0]], rest[1..]);
      KeptLinesOne([c] + rest[0]);
      KeptLinesOne(rest[0]);
    }
  }

  /** Replacing a line by one with the same strip keeps the same lines. */
  lemma {:induction false} KeptLinesReplace(a: seq<String>, x: String, y: String, b: seq<String>)
    requires Strip(x) == Strip(y)
    ensures KeptLines(a + [x] + b) == KeptLines(a + [y] + b)
  {
    KeptLinesConcat(a + [x], b);
    KeptLinesConcat(a + [y], b);
    KeptLinesConcat(a, [x]);
    KeptLinesConcat(a, [y]);
    KeptLinesOne(x);
    KeptLinesOne(y);
  }

  lemma {:induction false} KeptLinesSpaceSuffix(t: String, c: char)
    requires IsSpace(c)
    ensures KeptLines(Split(t + [c])) == KeptLines(Split(t))
  {
    var before := Split(t);
    var n := |before|;
    var empty: String := [];
    if c == Newline {
      assert t + [Newline] + empty == t + [c];
      KeptLinesSplitConcat(t, empty);
      assert Split(empty) == [empty];
      KeptLinesOne(empty);
    } else {
      SplitAppend(t, c);
      var init := before[..n - 1];
      var last := before[n - 1];
      assert before == init + [last] + [];
      assert Split(t + [c]) == init + [last + [c]] + [];
      StripSpaceSuffix(last, c);
      KeptLinesReplace(init, last + [c], last, []);
    }
  }

  lemma {:induction false} KeptLinesTrimLeft(s: String)
    ensures KeptLines(Split(TrimLeft(s))) == KeptLines(Split(s))
    decreases |s|
  {
    if |s| > 0 && IsSpace(s[0]) {
      KeptLinesTrimLeft(s[1..]);
      KeptLinesSpacePrefix(s[0], s[1..]);
      assert [s[0]] + s[1..] == s;
    }
  }

  lemma {:induction false} KeptLinesTrimRight(s: String)
    ensures KeptLines(Split(TrimRight(s))) == KeptLines(Split(s))
    decreases |s|
  {
    if |s| > 0 && IsSpace(s[|s| - 1]) {
      var init := s[..|s| - 1];
      var c := s[|s| - 1];
      assert init + [c] == s;
      assert TrimRight(s) == TrimRight(init);
      assert KeptLines(Split(TrimRight(init))) == KeptLines(Split(init)) by {
        KeptLinesTrimRight(init);
      }
      assert KeptLines(Split(s)) == KeptLines(Split(init)) by {
        KeptLinesSpaceSuffix(init, c);
      }
    }
  }

  /** Stripping a text before splitting it does not change the kept lines. */
  lemma {:induction false} KeptLinesStrip(s: String)
    ensures KeptLines(Split(Strip(s))) == KeptLines(Split(s))
  {
    KeptLinesTrimLeft(s);
    KeptLinesTrimRight(TrimLeft(s));
  }

  /** The `.strip()` before `__clean_lyrics` at line 104 never changes its result. */
  lemma {:induction false} CleanStrip(lyrics: String)
    ensures Clean(Strip(lyrics)) == Clean(lyrics)
  {
    KeptLinesStrip(lyrics);
  }

  // ---------------------------------------------------------------------
  // Container selection and accumulation: get_lyrics_from_genius_url
  // ---------------------------------------------------------------------

  /** The one error of the page-scraping step that is modelled. */
  datatype ScrapeError = LyricsContainerNotFound

  /** The accumulator after the loop: each container's text stripped and followed by a newline. */
  function Accumulate(containers: seq<String>): (acc: String)
    ensures containers != [] ==> acc != [] && acc[|acc| - 1] == Newline
  {
    if containers == [] then []
    else Accumulate(containers[..|containers| - 1]) + Strip(containers[|containers| - 1]) + [Newline]
  }

  /** The kept lines of each container, container after container in document order. */
  function ContainerLines(containers: seq<String>): (lines: seq<String>) {
    if containers == [] then []
    else ContainerLines(containers[..|containers| - 1]) + KeptLines(Split(containers[|containers| - 1]))
  }

  /** The kept lines of a text split at a newline are those of both sides. */
  lemma {:induction false} KeptLinesSplitConcat(a: String, b: String)
    ensures KeptLines(Split(a + [Newline] + b)) == KeptLines(Split(a)) + KeptLines(Split(b))
  {
    SplitConcat(a, b);
    KeptLinesConcat(Split(a), Split(b));
  }

  /** The split pieces of each stripped container, container after container. */
  function ContainerPieces(containers: seq<String>): (pieces: seq<String>) {
    if containers == [] then []
    else ContainerPieces(containers[..|containers| - 1]) + Split(Strip(containers[|containers| - 1]))
  }

  /** Splitting the accumulator splits every container separately. */
  lemma {:induction false} SplitAccumulate(containers: seq<String>, t: String)
    ensures Split(Accumulate(containers) + t) == ContainerPieces(containers) + Split(t)
    decreases |containers|
  {
    if containers != [] {
      var init := containers[..|containers| - 1];
      var c := containers[|containers| - 1];
      assert Accumulate(containers) + t == Accumulate(init) + (Strip(c) + [Newline] + t);
      SplitAccumulate(init, Strip(c) + [Newline] + t);
      SplitConcat(Strip(c), t);
      assert ContainerPieces(init) + (Split(Strip(c)) + Split(t))
        == (ContainerPieces(init) + Split(Strip(c))) + Split(t);
    } else {
      assert [] + t == t;
    }
  }

  lemma {:induction false} KeptLinesContainerPieces(containers: seq<String>)
    ensures KeptLines(ContainerPieces(containers)) == ContainerLines(containers)
    decreases |containers|
  {
    if containers != [] {
      var init := containers[..|containers| - 1];
      var c := containers[|containers| - 1];
      KeptLinesContainerPieces(init);
      KeptLinesConcat(ContainerPieces(init), Split(Strip(c)));
      KeptLinesStrip(c);
    }
  }

  /**
   * The scraped lyrics are the kept lines of the containers, each
   * container's lines in order and the containers in document order, joined
   * by single newlines.
   */
  lemma {:induction false} ScrapedLyrics(containers: seq<String>)
    ensures Clean(Strip(Accumulate(containers))) == Join(ContainerLines(containers))
  {
    var acc := Accumulate(containers);
    var empty: String := [];
    assert Clean(Strip(acc)) == Join(KeptLines(Split(acc))) by {
      CleanStrip(acc);
      CleanSkipsCollapse(acc);
    }
    assert KeptLines(Split(acc)) == ContainerLines(containers) by {
      assert acc + empty == acc;
      SplitAccumulate(containers, empty);
      assert Split(empty) == [empty];
      KeptLinesConcat(ContainerPieces(containers), [empty]);
      KeptLinesOne(empty);
      KeptLinesContainerPieces(containers);
    }
  }

  /** No line is kept exactly when every container's text is whitespace only. */
  lemma {:induction false} ContainerLinesEmpty(containers: seq<String>)
    ensures ContainerLines(containers) == [] <==> AllBlank(containers)
    decreases |containers|
  {
    if containers != [] {
      var init := containers[..|containers| - 1];
      var c := containers[|containers| - 1];
      var before := ContainerLines(init);
      var lines := KeptLines(Split(c));
      assert |ContainerLines(containers)| == |before| + |lines|;
      assert (|lines| == 0) == IsBlank(c) by {
        KeptLinesEmpty(Split(c));
        SplitBlank(c);
      }
      assert AllBlank(containers) == (AllBlank(init) && IsBlank(c)) by {
        assert init + [c] == containers;
        AllBlankSnoc(init, c);
      }
      assert (|before| == 0) == AllBlank(init) by {
        ContainerLinesEmpty(init);
      }
    }
  }

  /** The scraped lyrics are empty exactly when every container's text is whitespace only. */
  lemma {:induction false} ScrapedLyricsEmpty(containers: seq<String>)
    ensures Clean(Strip(Accumulate(containers))) == [] <==> AllBlank(containers)
  {
    ScrapedLyrics(containers);
    ContainerLinesEmpty(containers);
    var lines := ContainerLines(containers);
    if lines != [] {
      assert lines[0] != [] by {
        KeptLinesContainerPieces(containers);
        KeptLinesKeepable(ContainerPieces(containers));
      }
      assert |Join(lines)| >= |lines[0]|;
    }
  }

  /**
   * Lines 88-104 of `get_lyrics_from_genius_url`, given the texts of the
   * containers the primary selector and the fallback selector find.
   */
  method GetLyricsFromContainers(primary: seq<String>, fallback: seq<String>)
    returns (r: Result<String, ScrapeError>)
    ensures r.Failure? <==> primary == [] && fallback == []
    ensures primary != [] ==> r == Success(Clean(Strip(Accumulate(primary))))
    ensures primary == [] && fallback != [] ==> r == Success(Clean(Strip(Accumulate(fallback))))
    ensures r.Success? ==> r.value == Join(ContainerLines(if primary != [] then primary else fallback))
    ensures r.Success? ==> IsLyricsText(r.value)
    ensures r.Success? ==> (r.value == [] <==> AllBlank(if primary != [] then primary else fallback))
  {
    var containers := primary;
    if |containers| == 0 {
      containers := fallback;
    }
    if |containers| == 0 {
      return Failure(LyricsContainerNotFound);
    }
    var lyrics: String := [];
    for i := 0 to |containers|
      invariant lyrics == Accumulate(containers[..i])
    {
      lyrics := lyrics + Strip(containers[i]) + [Newline];
      assert containers[..i + 1][..i] == containers[..i];
    }
    assert containers[..|containers|] == containers;
    var cleaned := CleanLyrics(Strip(lyrics));
    ScrapedLyrics(containers);
    ScrapedLyricsEmpty(containers);
    return Success(cleaned);
  }

  // ---------------------------------------------------------------------
  // Best match: extract_song_info
  // ---------------------------------------------------------------------

  /** A JSON object member: absent, present with `null`, or present with a value. */
  datatype JsonField<T> = Missing | Null | Present(value: T)

  datatype Artist = Artist(name: String)

  datatype Stats = Stats(pageviews: JsonField<int>)

  /** The `result` object of a search hit, with the keys the scraper reads. */
  datatype SongResult = SongResult(
    id: int,
    title: String,
    primaryArtist: Artist,
    fullTitle: String,
    url: String,
    releaseDateForDisplay: JsonField<String>,
    stats: Stats)

  /** A search hit: its `type` and its `result`. */
  datatype Hit = Hit(kind: String, result: SongResult)

  /** The decoded search response; `hits` is `None` when the key is absent. */
  datatype SearchResults = SearchResults(hits: Option<seq<Hit>>)

  /** The record `extract_song_info` builds; `None` stands for a JSON `null`. */
  datatype SongInfo = SongInfo(
    id: int,
    title: String,
    artist: String,
    fullTitle: String,
    url: String,
    releaseDate: Option<String>,
    pageviews: Option<int>)

  const SongType: String := "song"
  const UnknownReleaseDate: String := "Unknown"

  /** `obj.get(key, default)`: the default when the key is absent, `None` for a `null`. */
  function Get<T>(field: JsonField<T>, default: T): (r: Option<T>)
    ensures r.None? <==> field.Null?
    ensures field.Missing? ==> r == Some(default)
    ensures field.Present? ==> r == Some(field.value)
  {
    match field
    case Missing => Some(default)
    case Null => None
    case Present(v) => Some(v)
  }

  /** The record of one song hit, with the defaults for the two optional keys. */
  function ToSongInfo(result: SongResult): (info: SongInfo)
    ensures info.artist == result.primaryArtist.name
    ensures info.id == result.id && info.title == result.title
    ensures info.fullTitle == result.fullTitle && info.url == result.url
    ensures result.releaseDateForDisplay.Missing? ==> info.releaseDate == Some(UnknownReleaseDate)
    ensures result.releaseDateForDisplay.Present? ==> info.releaseDate == Some(result.releaseDateForDisplay.value)
    ensures result.releaseDateForDisplay.Null? ==> info.releaseDate == None
    ensures result.stats.pageviews.Missing? ==> info.pageviews == Some(0)
    ensures result.stats.pageviews.Present? ==> info.pageviews == Some(result.stats.pageviews.value)
    ensures result.stats.pageviews.Null? ==> info.pageviews == None
  {
    SongInfo(
      result.id,
      result.title,
      result.primaryArtist.name,
      result.fullTitle,
      result.url,
      Get(result.releaseDateForDisplay, UnknownReleaseDate),
      Get(result.stats.pageviews, 0))
  }

  /** The `songs` list: the records of the song-typed hits, in order. */
  function Songs(hits: seq<Hit>): (songs: seq<SongInfo>)
    ensures |songs| <= |hits|
  {
    if hits == [] then []
    else
      var init := Songs(hits[..|hits| - 1]);
      var hit := hits[|hits| - 1];
      if hit.kind == SongType then init + [ToSongInfo(hit.result)] else init
  }

  /** What `extract_song_info` returns: the first record of `songs`, if any. */
  function SelectBestMatch(searchResults: SearchResults): (song: Option<SongInfo>) {
    match searchResults.hits
    case None => None
    case Some(hits) =>
      var songs := Songs(hits);
      if songs == [] then None else Some(songs[0])
  }

  /** `k` is the position of the first song-typed hit. */
  predicate IsFirstSong(hits: seq<Hit>, k: int) {
    && 0 <= k < |hits|
    && hits[k].kind == SongType
    && forall j :: 0 <= j < k ==> hits[j].kind != SongType
  }

  /** The loop of `extract_song_info`. */
  method ExtractSongInfo(searchResults: SearchResults) returns (song: Option<SongInfo>)
    ensures song == SelectBestMatch(searchResults)
    ensures song.None? <==> searchResults.hits.None? || NoSongHit(searchResults.hits.value)
  {
    var songs: seq<SongInfo> := [];
    if searchResults.hits.Some? {
      var hits := searchResults.hits.value;
      for i := 0 to |hits|
        invariant songs == Songs(hits[..i])
      {
        var hit := hits[i];
        if hit.kind == SongType {
          songs := songs + [ToSongInfo(hit.result)];
        }
        assert hits[..i + 1][..i] == hits[..i];
      }
      assert hits[..|hits|] == hits;
    }
    song := if |songs| > 0 then Some(songs[0]) else None;
    SelectBestMatchNone(searchResults);
  }

  /** No hit has type "song". */
  predicate NoSongHit(hits: seq<Hit>) {
    forall k :: 0 <= k < |hits| ==> hits[k].kind != SongType
  }

  lemma {:induction false} SongsConcat(a: seq<Hit>, b: seq<Hit>)
    ensures Songs(a + b) == Songs(a) + Songs(b)
    decreases |b|
  {
    if b == [] {
      assert a + b == a;
    } else {
      var init := b[..|b| - 1];
      assert (a + b)[..|a + b| - 1] == a + init;
      assert (a + b)[|a + b| - 1] == b[|b| - 1];
      SongsConcat(a, init);
    }
  }

  lemma {:induction false} SongsEmpty(hits: seq<Hit>)
    ensures Songs(hits) == [] <==> NoSongHit(hits)
  {
    if hits != [] {
      var init := hits[..|hits| - 1];
      SongsEmpty(init);
      assert NoSongHit(hits) <==> NoSongHit(init) && hits[|hits| - 1].kind != SongType by {
        if NoSongHit(init) && hits[|hits| - 1].kind != SongType {
          forall k | 0 <= k < |hits| ensures hits[k].kind != SongType {
            if k < |init| { assert hits[k] == init[k]; }
          }
        }
        if NoSongHit(hits) {
          forall k | 0 <= k < |init| ensures init[k].kind != SongType { assert init[k] == hits[k]; }
        }
      }
    }
  }

  /** No match exactly when `hits` is absent or no hit has type "song". */
  lemma {:induction false} SelectBestMatchNone(searchResults: SearchResults)
    ensures SelectBestMatch(searchResults).None? <==>
      searchResults.hits.None? || NoSongHit(searchResults.hits.value)
  {
    if searchResults.hits.Some? {
      SongsEmpty(searchResults.hits.value);
    }
  }

  /**
   * The match is the record of the first song-typed hit, whatever non-song
   * hits precede it and whatever hits follow it (every hit here is well formed).
   */
  lemma {:induction false} SelectBestMatchFirstSong(hits: seq<Hit>, k: int)
    requires IsFirstSong(hits, k)
    ensures SelectBestMatch(SearchResults(Some(hits))) == Some(ToSongInfo(hits[k].result))
  {
    var before := hits[..k];
    var after := hits[k + 1..];
    assert hits == before + [hits[k]] + after;
    SongsConcat(before + [hits[k]], after);
    SongsConcat(before, [hits[k]]);
    assert NoSongHit(before) by {
      forall j | 0 <= j < |before| ensures before[j].kind != SongType { assert before[j] == hits[j]; }
    }
    SongsEmpty(before);
    assert Songs([hits[k]]) == [ToSongInfo(hits[k].result)] by { assert [hits[k]][..0] == []; }
  }
}
