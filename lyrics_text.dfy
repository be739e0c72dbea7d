/** The scraper's text checks: whether a page fragment looks like song lyrics, and how
    a fragment is cleaned before it is returned as lyrics. */
module LyricsText {
  import opened JsStrings

  /** Texts shorter than this are never taken for lyrics. */
  const MinLyricsLength := 50

  // ---------------------------------------------------------------------------
  // looksLikeLyrics: four regular expressions, any one of which is enough

  /** `/\n.*\n/`: two line feeds with no line terminator between them. */
  predicate HasLineBetweenBreaks(s: string) {
    exists i, j | 0 <= i < j < |s| ::
      s[i] == '\n' && s[j] == '\n' && forall k | i < k < j :: !IsLineTerminator(s[k])
  }

  /** Case folding of a pattern with the `i` flag and without the `u` flag, restricted
      to what the ASCII-only pattern words below can be equal to. */
  function AsciiLower(c: char): char {
    if 'A' <= c <= 'Z' then (c as int + 32) as char else c
  }

  /** The lower-case ASCII `word` occurs at `i`, letter case aside. */
  predicate OccursAtIgnoringCase(s: string, i: nat, word: string) {
    i + |word| <= |s| && forall k | 0 <= k < |word| :: AsciiLower(s[i + k]) == word[k]
  }

  /** `/(couplet|refrain|verse|chorus)/i`. */
  predicate HasSongWord(s: string) {
    exists i | 0 <= i < |s| ::
      OccursAtIgnoringCase(s, i, "couplet") || OccursAtIgnoringCase(s, i, "refrain")
      || OccursAtIgnoringCase(s, i, "verse") || OccursAtIgnoringCase(s, i, "chorus")
  }

  /** `/\n\s*\n/`: two line feeds with only whitespace between them. */
  predicate HasBlankLine(s: string) {
    exists i, j | 0 <= i < j < |s| ::
      s[i] == '\n' && s[j] == '\n' && forall k | i < k < j :: IsSpace(s[k])
  }

  /** `/.{10,}[\n\r].{10,}/`: a line feed or carriage return with at least ten
      characters other than line terminators right before it and right after it. */
  predicate HasTwoLongLines(s: string) {
    exists i | 10 <= i < |s| - 10 ::
      (s[i] == '\n' || s[i] == '\r')
      && (forall k | i - 10 <= k < i :: !IsLineTerminator(s[k]))
      && (forall k | i < k <= i + 10 :: !IsLineTerminator(s[k]))
  }

  /** `looksLikeLyrics`: long enough, and one of the four patterns is found. */
  predicate LooksLikeLyrics(text: string) {
    |text| >= MinLyricsLength
    && (HasLineBetweenBreaks(text) || HasSongWord(text) || HasBlankLine(text)
        || HasTwoLongLines(text))
  }

  // ---------------------------------------------------------------------------
  // cleanLyrics, one function per step of the chain

  /** `replace(/\r\n/g, '\n')`. */
  function ReplaceCrLf(s: string): (r: string)
    decreases |s|
  {
    if s == [] then []
    else if |s| >= 2 && s[0] == '\r' && s[1] == '\n' then "\n" + ReplaceCrLf(s[2..])
    else [s[0]] + ReplaceCrLf(s[1..])
  }

  /** `replace(/\r/g, '\n')`. */
  function ReplaceCr(s: string): (r: string)
    ensures '\r' !in r
  {
    seq(|s|, i requires 0 <= i < |s| => if s[i] == '\r' then '\n' else s[i])
  }

  /** Both line-ending replacements: every line break becomes a single line feed. */
  function UnifyLineEndings(s: string): (r: string)
    ensures '\r' !in r
  {
    ReplaceCr(ReplaceCrLf(s))
  }

  /** The number of line feeds in the run of whitespace that `s` starts with. */
  function BreaksInRun(s: string): nat {
    if s == [] || !IsSpace(s[0]) then 0
    else (if s[0] == '\n' then 1 else 0) + BreaksInRun(s[1..])
  }

  /** The index of the last line feed in the run of whitespace that `s` starts with,
      or -1 when that run has none. */
  function LastBreakInRun(s: string): (k: int)
    ensures -1 <= k < |s|
    ensures k >= 0 ==> s[k] == '\n' && AllSpace(s[..k + 1])
    ensures s != [] && s[0] == '\n' ==> k >= 0
  {
    if s == [] || !IsSpace(s[0]) then -1
    else
      var k := LastBreakInRun(s[1..]);
      if k >= 0 then k + 1 else if s[0] == '\n' then 0 else -1
  }

  /** The line feed found is the last one of the run: the run has none exactly when
      no index is found, and none is left after the index found. */
  lemma {:induction false} LastBreakInRunIsLast(s: string)
    ensures LastBreakInRun(s) == -1 <==> BreaksInRun(s) == 0
    ensures LastBreakInRun(s) >= 0 ==> BreaksInRun(s[LastBreakInRun(s) + 1..]) == 0
    decreases |s|
  {
    if s != [] && IsSpace(s[0]) {
      LastBreakInRunIsLast(s[1..]);
      var k := LastBreakInRun(s[1..]);
      if k >= 0 {
        assert s[1..][k + 1..] == s[k + 2..];
      }
    }
  }

  /** `replace(/\n\s*\n\s*\n+/g, '\n\n')`. A match starts at a line feed whose run of
      whitespace holds at least three line feeds; backtracking makes it end right after
      the last line feed of that run, and the scan resumes there. */
  function CollapseBlankLines(s: string): (r: string)
    decreases |s|
  {
    if s == [] then []
    else if s[0] == '\n' && BreaksInRun(s) >= 3 then
      "\n\n" + CollapseBlankLines(s[LastBreakInRun(s) + 1..])
    else [s[0]] + CollapseBlankLines(s[1..])
  }

  /** The index of the first occurrence of `c` in `s`. */
  function IndexOf(s: string, c: char): (i: nat)
    requires c in s
    ensures i < |s| && s[i] == c
    ensures forall j | 0 <= j < i :: s[j] != c
  {
    if s[0] == c then 0 else 1 + IndexOf(s[1..], c)
  }

  /** `split('\n')`: the pieces between line feeds; there is always at least one. */
  function Lines(s: string): (ls: seq<string>)
    ensures |ls| >= 1
    ensures forall k | 0 <= k < |ls| :: '\n' !in ls[k]
    decreases |s|
  {
    if '\n' in s then
      var i := IndexOf(s, '\n');
      [s[..i]] + Lines(s[i + 1..])
    else [s]
  }

  /** `join('\n')`. */
  function Unlines(ls: seq<string>): string
    decreases |ls|
  {
    if ls == [] then []
    else if |ls| == 1 then ls[0]
    else ls[0] + "\n" + Unlines(ls[1..])
  }

  /** `map(line => line.trim())`. */
  function TrimEach(ls: seq<string>): (r: seq<string>)
    ensures |r| == |ls|
  {
    if ls == [] then [] else [Trim(ls[0])] + TrimEach(ls[1..])
  }

  /** `filter(line => line.length > 0)`. */
  function DropEmpty(ls: seq<string>): (r: seq<string>)
    ensures forall l | l in r :: l in ls && l != []
    ensures |r| <= |ls|
  {
    if ls == [] then []
    else if ls[0] == [] then DropEmpty(ls[1..])
    else [ls[0]] + DropEmpty(ls[1..])
  }

  /** The lines kept by the split/map/filter part of the chain. */
  function KeptLines(s: string): seq<string> {
    DropEmpty(TrimEach(Lines(s)))
  }

  /** `replace(/\n\n\n+/g, '\n\n')`. */
  function DropLineFeeds(s: string): (r: string)
    ensures |r| <= |s|
    ensures s != [] && s[0] == '\n' ==> |r| < |s|
  {
    if s != [] && s[0] == '\n' then DropLineFeeds(s[1..]) else s
  }

  function CollapseLineFeedRuns(s: string): string
    decreases |s|
  {
    if s == [] then []
    else if |s| >= 3 && s[0] == '\n' && s[1] == '\n' && s[2] == '\n' then
      "\n\n" + CollapseLineFeedRuns(DropLineFeeds(s))
    else [s[0]] + CollapseLineFeedRuns(s[1..])
  }

  /** `cleanLyrics`. */
  function CleanLyrics(text: string): string {
    var unified := UnifyLineEndings(text);
    var collapsed := CollapseBlankLines(unified);
    var trimmed := Trim(collapsed);
    CollapseLineFeedRuns(Unlines(KeptLines(trimmed)))
  }

  // ---------------------------------------------------------------------------
  // What cleaned text looks like

  /** A line that survives cleaning: not empty, no line break inside, no whitespace at
      either end. */
  predicate GoodLine(l: string) {
    l != [] && !IsSpace(l[0]) && !IsSpace(l[|l| - 1]) && '\n' !in l && '\r' !in l
  }

  /** Text that cleaning leaves alone: no carriage return, no whitespace at either end,
      and every line feed sits between two characters that are not whitespace. */
  predicate IsCleanText(c: string) {
    '\r' !in c
    && (c != [] ==> !IsSpace(c[0]) && !IsSpace(c[|c| - 1]))
    && forall i | 0 <= i < |c| && c[i] == '\n' ::
         0 < i < |c| - 1 && !IsSpace(c[i - 1]) && !IsSpace(c[i + 1])
  }

  predicate NoDoubleLineFeed(s: string) {
    forall i | 0 <= i < |s| - 1 :: !(s[i] == '\n' && s[i + 1] == '\n')
  }

  // ---------------------------------------------------------------------------
  // Splitting and joining lines

  lemma IndexOfIsFirst(s: string, c: char, k: nat)
    requires k < |s| && s[k] == c
    requires forall j | 0 <= j < k :: s[j] != c
    ensures IndexOf(s, c) == k
  {
  }

  /** Cuts `s` at its first line feed. */
  lemma SplitAtFirstBreak(s: string) returns (l: string, r: string)
    requires '\n' in s
    ensures s == l + "\n" + r && '\n' !in l
    ensures AllSpace(s) ==> AllSpace(l) && AllSpace(r)
  {
    var i := IndexOf(s, '\n');
    l, r := s[..i], s[i + 1..];
    assert s == l + "\n" + r;
  }

  /** The first line ends at the first line feed. */
  lemma LinesAtFirstBreak(s: string, i: nat)
    requires i < |s| && s[i] == '\n'
    requires forall j | 0 <= j < i :: s[j] != '\n'
    ensures Lines(s) == [s[..i]] + Lines(s[i + 1..])
  {
    IndexOfIsFirst(s, '\n', i);
  }

  lemma LinesSplitFirstLine(a: string, b: string)
    requires '\n' !in a
    ensures Lines(a + "\n" + b) == [a] + Lines(b)
  {
    var s := a + "\n" + b;
    LinesAtFirstBreak(s, |a|);
    assert s[..|a|] == a;
    assert s[|a| + 1..] == b;
  }

  /** Splitting at a line feed splits the list of lines there. */
  lemma {:induction false} LinesSplit(a: string, b: string)
    ensures Lines(a + "\n" + b) == Lines(a) + Lines(b)
    decreases |a|
  {
    if '\n' in a {
      var l, a' := SplitAtFirstBreak(a);
      LinesSplit(a', b);
      LinesSplitStep(l, a', b);
    } else {
      LinesSplitOneLine(a, b);
    }
  }

  lemma LinesBeforeTwoBreaks(l: string, a: string, b: string)
    requires '\n' !in l
    ensures Lines(l + "\n" + a + "\n" + b) == [l] + Lines(a + "\n" + b)
  {
    Assoc4(l + "\n", a, "\n", b);
    LinesSplitFirstLine(l, a + "\n" + b);
  }

  lemma LinesSplitStep(l: string, a: string, b: string)
    requires '\n' !in l
    requires Lines(a + "\n" + b) == Lines(a) + Lines(b)
    ensures Lines(l + "\n" + a + "\n" + b) == Lines(l + "\n" + a) + Lines(b)
  {
    LinesBeforeTwoBreaks(l, a, b);
    LinesSplitFirstLine(l, a);
    Assoc([l], Lines(a), Lines(b));
  }

  lemma LinesSplitOneLine(a: string, b: string)
    requires '\n' !in a
    ensures Lines(a + "\n" + b) == Lines(a) + Lines(b)
  {
    LinesSplitFirstLine(a, b);
  }

  /** Joining the lines of a text gives the text back. */
  lemma {:induction false} UnlinesLines(s: string)
    ensures Unlines(Lines(s)) == s
    decreases |s|
  {
    if '\n' in s {
      var i := IndexOf(s, '\n');
      var rest := Lines(s[i + 1..]);
      UnlinesLines(s[i + 1..]);
      assert ([s[..i]] + rest)[1..] == rest;
      assert s == s[..i] + "\n" + s[i + 1..];
    }
  }

  /** Splitting a join of lines without line feeds gives the lines back. */
  lemma {:induction false} LinesUnlines(ls: seq<string>)
    requires |ls| >= 1
    requires forall l | l in ls :: '\n' !in l
    ensures Lines(Unlines(ls)) == ls
    decreases |ls|
  {
    if |ls| > 1 {
      LinesUnlines(ls[1..]);
      LinesSplit(ls[0], Unlines(ls[1..]));
      assert ls == [ls[0]] + ls[1..];
    }
  }

  lemma {:induction false} TrimEachAppend(a: seq<string>, b: seq<string>)
    ensures TrimEach(a + b) == TrimEach(a) + TrimEach(b)
    decreases |a|
  {
    if a == [] {
      assert a + b == b;
    } else {
      assert (a + b)[1..] == a[1..] + b;
      TrimEachAppend(a[1..], b);
    }
  }

  lemma {:induction false} DropEmptyAppend(a: seq<string>, b: seq<string>)
    ensures DropEmpty(a + b) == DropEmpty(a) + DropEmpty(b)
    decreases |a|
  {
    if a == [] {
      assert a + b == b;
    } else {
      assert (a + b)[1..] == a[1..] + b;
      DropEmptyAppend(a[1..], b);
    }
  }

  lemma {:induction false} DropEmptyKeepsNonEmpty(ls: seq<string>)
    requires forall l | l in ls :: l != []
    ensures DropEmpty(ls) == ls
    decreases |ls|
  {
    if ls != [] {
      assert ls[0] in ls;
      assert forall l | l in ls[1..] :: l in ls;
      DropEmptyKeepsNonEmpty(ls[1..]);
      assert ls == [ls[0]] + ls[1..];
    }
  }

  // ---------------------------------------------------------------------------
  // The kept lines, and what leaves them unchanged

  lemma KeptLinesSplit(a: string, b: string)
    ensures KeptLines(a + "\n" + b) == KeptLines(a) + KeptLines(b)
  {
    LinesSplit(a, b);
    TrimEachAppend(Lines(a), Lines(b));
    DropEmptyAppend(TrimEach(Lines(a)), TrimEach(Lines(b)));
  }

  /** A text without line feeds is one line, so its kept lines depend on its trim only. */
  lemma KeptLinesOfLineByTrim(l1: string, l2: string)
    requires '\n' !in l1 && '\n' !in l2 && Trim(l1) == Trim(l2)
    ensures KeptLines(l1) == KeptLines(l2)
  {
    assert Lines(l1) == [l1] && Lines(l2) == [l2];
    assert TrimEach([l1]) == [Trim(l1)] + TrimEach([]);
    assert TrimEach([l2]) == [Trim(l2)] + TrimEach([]);
  }

  lemma KeptLinesOfEmpty()
    ensures KeptLines([]) == []
  {
    assert Lines([]) == [[]];
    assert TrimEach([[]]) == [Trim([])] + TrimEach([]);
  }

  /** Text made only of whitespace keeps no line. */
  lemma {:induction false} KeptLinesOfSpace(w: string)
    requires AllSpace(w)
    ensures KeptLines(w) == []
    decreases |w|
  {
    if '\n' in w {
      var i := IndexOf(w, '\n');
      assert w == w[..i] + "\n" + w[i + 1..];
      KeptLinesSplit(w[..i], w[i + 1..]);
      KeptLinesOfSpace(w[..i]);
      KeptLinesOfSpace(w[i + 1..]);
    } else {
      TrimIgnoresPadding(w, [], []);
      assert w + [] + [] == w;
      KeptLinesOfLineByTrim(w, []);
      KeptLinesOfEmpty();
    }
  }

  lemma LinePadLeft(w: string, l: string)
    requires AllSpace(w) && '\n' !in w && '\n' !in l
    ensures KeptLines(w + l) == KeptLines(l)
  {
    TrimIgnoresLeftPadding(w, l);
    NoBreakConcat(w, l);
    KeptLinesOfLineByTrim(w + l, l);
  }

  lemma NoBreakConcat(a: string, b: string)
    requires '\n' !in a && '\n' !in b
    ensures '\n' !in a + b
  {
  }

  lemma LinePadRight(l: string, w: string)
    requires AllSpace(w) && '\n' !in w && '\n' !in l
    ensures KeptLines(l + w) == KeptLines(l)
  {
    TrimIgnoresRightPadding(l, w);
    NoBreakConcat(l, w);
    KeptLinesOfLineByTrim(l + w, l);
  }

  lemma PadLeftOfFirstLine(w: string, x: string)
    requires AllSpace(w) && '\n' !in w
    ensures KeptLines(w + x) == KeptLines(x)
  {
    if '\n' in x {
      var x1, x2 := SplitAtFirstBreak(x);
      assert w + x == (w + x1) + "\n" + x2;
      KeptLinesSplit(w + x1, x2);
      KeptLinesSplit(x1, x2);
      LinePadLeft(w, x1);
    } else {
      LinePadLeft(w, x);
    }
  }

  /** Whitespace in front of a text changes none of its kept lines. */
  lemma {:induction false} KeptLinesPadLeft(w: string, x: string)
    requires AllSpace(w)
    ensures KeptLines(w + x) == KeptLines(x)
    decreases |w|
  {
    if '\n' in w {
      var w1, w2 := SplitAtFirstBreak(w);
      assert w + x == w1 + "\n" + (w2 + x);
      KeptLinesSplit(w1, w2 + x);
      KeptLinesOfSpace(w1);
      KeptLinesPadLeft(w2, x);
      assert [] + KeptLines(w2 + x) == KeptLines(w2 + x);
    } else {
      PadLeftOfFirstLine(w, x);
    }
  }

  lemma PadRightOfLastLine(x: string, w: string)
    requires AllSpace(w) && '\n' !in x
    ensures KeptLines(x + w) == KeptLines(x)
  {
    if '\n' in w {
      var w1, w2 := SplitAtFirstBreak(w);
      assert x + w == (x + w1) + "\n" + w2;
      KeptLinesSplit(x + w1, w2);
      KeptLinesOfSpace(w2);
      LinePadRight(x, w1);
      assert KeptLines(x) + [] == KeptLines(x);
    } else {
      LinePadRight(x, w);
    }
  }

  /** Whitespace after a text changes none of its kept lines. */
  lemma {:induction false} KeptLinesPadRight(x: string, w: string)
    requires AllSpace(w)
    ensures KeptLines(x + w) == KeptLines(x)
    decreases |x|
  {
    if '\n' in x {
      var x1, x2 := SplitAtFirstBreak(x);
      assert x + w == x1 + "\n" + (x2 + w);
      KeptLinesSplit(x1, x2 + w);
      KeptLinesSplit(x1, x2);
      KeptLinesPadRight(x2, w);
    } else {
      PadRightOfLastLine(x, w);
    }
  }

  /** The trim of line 244 changes no kept line. */
  lemma KeptLinesOfTrim(s: string)
    ensures KeptLines(Trim(s)) == KeptLines(s)
  {
    var d := TrimSplits(s);
    var p, q := s[..d], s[d + |Trim(s)|..];
    var m := Trim(s);
    assert s == p + (m + q);
    KeptLinesPadLeft(p, m + q);
    KeptLinesPadRight(m, q);
  }

  lemma BlankBeforeVanishes(w: string, x: string)
    requires AllSpace(w)
    ensures KeptLines(w + "\n" + x) == KeptLines(x)
  {
    KeptLinesSplit(w, x);
    KeptLinesOfSpace(w);
    assert [] + KeptLines(x) == KeptLines(x);
  }

  /** A stretch of whitespace that starts and ends with a line feed separates the
      kept lines before it from those after it. */
  lemma KeptLinesAcrossBlank(p: string, w: string, x: string)
    requires AllSpace(w) && |w| >= 1 && w[0] == '\n' && w[|w| - 1] == '\n'
    ensures KeptLines(p + w + x) == KeptLines(p) + KeptLines(x)
  {
    if |w| == 1 {
      assert p + w + x == p + "\n" + x;
      KeptLinesSplit(p, x);
    } else {
      var mid := w[1..|w| - 1];
      assert p + w + x == p + "\n" + (mid + "\n" + x);
      KeptLinesSplit(p, mid + "\n" + x);
      BlankBeforeVanishes(mid, x);
    }
  }

  /** The replacement text of line 243 is such a stretch. */
  lemma KeptLinesAcrossPair(p: string, x: string)
    ensures KeptLines(p + "\n\n" + x) == KeptLines(p) + KeptLines(x)
  {
    var w := "\n\n";
    assert AllSpace(w) && w[0] == '\n' && w[|w| - 1] == '\n';
    KeptLinesAcrossBlank(p, w, x);
  }

  /** Either line 243 finds no match and leaves the text alone, or its first match
      replaces a stretch `w` of whitespace and the scan goes on after it. */
  lemma {:induction false} FirstBlankRun(s: string)
    returns (found: bool, a: string, w: string, rest: string)
    ensures !found ==> CollapseBlankLines(s) == s
    ensures found ==> s == a + w + rest && CollapseBlankLines(s) == a + "\n\n" + CollapseBlankLines(rest)
    ensures found ==> AllSpace(w) && |w| >= 1 && w[0] == '\n' && w[|w| - 1] == '\n'
    decreases |s|
  {
    if s == [] {
      found, a, w, rest := false, [], [], [];
    } else if s[0] == '\n' && BreaksInRun(s) >= 3 {
      found := true;
      a, w, rest := BlankRunAtStart(s);
    } else {
      var a';
      found, a', w, rest := FirstBlankRun(s[1..]);
      a := [s[0]] + a';
      BlankRunAfterFirst(s, found, a', w, rest);
    }
  }

  lemma BlankRunAtStart(s: string) returns (a: string, w: string, rest: string)
    requires s != [] && s[0] == '\n' && BreaksInRun(s) >= 3
    ensures s == a + w + rest && CollapseBlankLines(s) == a + "\n\n" + CollapseBlankLines(rest)
    ensures AllSpace(w) && |w| >= 1 && w[0] == '\n' && w[|w| - 1] == '\n'
  {
    var k := LastBreakInRun(s);
    a, w, rest := [], s[..k + 1], s[k + 1..];
    assert s == a + w + rest;
    assert "\n\n" + CollapseBlankLines(rest) == a + "\n\n" + CollapseBlankLines(rest);
  }

  lemma BlankRunAfterFirst(s: string, found: bool, a: string, w: string, rest: string)
    requires s != [] && !(s[0] == '\n' && BreaksInRun(s) >= 3)
    requires !found ==> CollapseBlankLines(s[1..]) == s[1..]
    requires found ==>
      s[1..] == a + w + rest && CollapseBlankLines(s[1..]) == a + "\n\n" + CollapseBlankLines(rest)
    ensures !found ==> CollapseBlankLines(s) == s
    ensures found ==> s == [s[0]] + a + w + rest
    ensures found ==> CollapseBlankLines(s) == [s[0]] + a + "\n\n" + CollapseBlankLines(rest)
  {
    ConsSplit(s);
    if found {
      Assoc4([s[0]], a, w, rest);
      Assoc4([s[0]], a, "\n\n", CollapseBlankLines(rest));
    }
  }

  /** Collapsing runs of blank lines (line 243) changes no kept line. */
  lemma {:induction false} CollapseBlankLinesKeepsLines(s: string)
    ensures KeptLines(CollapseBlankLines(s)) == KeptLines(s)
    decreases |s|
  {
    var found, a, w, rest := FirstBlankRun(s);
    if found {
      CollapseBlankLinesKeepsLines(rest);
      KeptLinesAcrossPair(a, CollapseBlankLines(rest));
      KeptLinesAcrossBlank(a, w, rest);
    }
  }

  // ---------------------------------------------------------------------------
  // Kept lines are good, and good lines join into clean text

  lemma {:induction false} LinesAvoidCr(s: string)
    requires '\r' !in s
    ensures forall k | 0 <= k < |Lines(s)| :: '\r' !in Lines(s)[k]
    decreases |s|
  {
    if '\n' in s {
      var i := IndexOf(s, '\n');
      var l, s' := s[..i], s[i + 1..];
      assert s == l + "\n" + s';
      LinesSplitFirstLine(l, s');
      LinesAvoidCr(s');
    }
  }

  /** A trimmed line without line breaks is good unless it is empty. */
  lemma TrimmedLineGood(l: string)
    requires '\n' !in l && '\r' !in l
    ensures Trim(l) != [] ==> GoodLine(Trim(l))
  {
    var d := TrimSplits(l);
  }

  lemma {:induction false} KeptGood(ls: seq<string>)
    requires forall k | 0 <= k < |ls| :: '\n' !in ls[k] && '\r' !in ls[k]
    ensures forall l | l in DropEmpty(TrimEach(ls)) :: GoodLine(l)
    decreases |ls|
  {
    if ls != [] {
      KeptGood(ls[1..]);
      TrimmedLineGood(ls[0]);
    }
  }

  lemma KeptLinesGood(s: string)
    requires '\r' !in s
    ensures forall l | l in KeptLines(s) :: GoodLine(l)
  {
    LinesAvoidCr(s);
    KeptGood(Lines(s));
  }

  lemma {:induction false} UnlinesClean(ls: seq<string>)
    requires forall l | l in ls :: GoodLine(l)
    ensures IsCleanText(Unlines(ls))
    ensures Unlines(ls) == [] <==> ls == []
    decreases |ls|
  {
    if |ls| == 1 {
      assert GoodLine(ls[0]);
    } else if |ls| > 1 {
      var l, u := ls[0], Unlines(ls[1..]);
      assert GoodLine(l);
      UnlinesClean(ls[1..]);
      var c := l + "\n" + u;
      assert Unlines(ls) == c;
      assert c[0] == l[0] && c[|c| - 1] == u[|u| - 1];
      forall i | 0 <= i < |c| && c[i] == '\n'
        ensures 0 < i < |c| - 1 && !IsSpace(c[i - 1]) && !IsSpace(c[i + 1])
      {
        if i == |l| {
          assert c[i - 1] == l[|l| - 1] && c[i + 1] == u[0];
        } else {
          assert i > |l|;
          var j := i - |l| - 1;
          assert c[i] == u[j];
          assert c[i - 1] == u[j - 1] && c[i + 1] == u[j + 1];
        }
      }
    }
  }

  lemma CleanTextNoDoubleLineFeed(c: string)
    requires IsCleanText(c)
    ensures NoDoubleLineFeed(c)
  {
  }

  lemma {:induction false} CollapseLineFeedRunsKeeps(s: string)
    requires NoDoubleLineFeed(s)
    ensures CollapseLineFeedRuns(s) == s
    decreases |s|
  {
    if s != [] {
      CollapseLineFeedRunsKeeps(s[1..]);
    }
  }

  lemma {:induction false} ReplaceCrLfKeeps(s: string)
    requires '\r' !in s
    ensures ReplaceCrLf(s) == s
    decreases |s|
  {
    if s != [] {
      assert s[0] != '\r';
      ReplaceCrLfKeeps(s[1..]);
    }
  }

  lemma UnifyLineEndingsKeeps(s: string)
    requires '\r' !in s
    ensures UnifyLineEndings(s) == s
  {
    ReplaceCrLfKeeps(s);
  }

  /** The lines of `s` when `\r\n`, a lone `\r` and `\n` each end a line. */
  function SplitLineBreaks(s: string): (ls: seq<string>)
    ensures |ls| >= 1
    ensures forall k | 0 <= k < |ls| :: '\n' !in ls[k] && '\r' !in ls[k]
    decreases |s|
  {
    if s == [] then [[]]
    else if |s| >= 2 && s[0] == '\r' && s[1] == '\n' then [[]] + SplitLineBreaks(s[2..])
    else if s[0] == '\r' || s[0] == '\n' then [[]] + SplitLineBreaks(s[1..])
    else
      var ls := SplitLineBreaks(s[1..]);
      [[s[0]] + ls[0]] + ls[1..]
  }

  lemma ReplaceCrAppend(a: string, b: string)
    ensures ReplaceCr(a + b) == ReplaceCr(a) + ReplaceCr(b)
  {
    assert forall i | 0 <= i < |a + b| :: (a + b)[i] == if i < |a| then a[i] else b[i - |a|];
  }

  /** Line endings are unified from the front: `\r\n` and a lone `\r` each give one
      `\n`, and any other character is kept. */
  lemma UnifyStep(s: string)
    requires s != []
    ensures UnifyLineEndings(s) ==
      if |s| >= 2 && s[0] == '\r' && s[1] == '\n' then "\n" + UnifyLineEndings(s[2..])
      else if s[0] == '\r' || s[0] == '\n' then "\n" + UnifyLineEndings(s[1..])
      else [s[0]] + UnifyLineEndings(s[1..])
  {
    if |s| >= 2 && s[0] == '\r' && s[1] == '\n' {
      ReplaceCrAppend("\n", ReplaceCrLf(s[2..]));
    } else {
      ReplaceCrAppend([s[0]], ReplaceCrLf(s[1..]));
    }
  }

  lemma LinesCons(c: char, y: string)
    requires c != '\n'
    ensures Lines([c] + y) == [[c] + Lines(y)[0]] + Lines(y)[1..]
  {
    if '\n' in y {
      var l, r := SplitAtFirstBreak(y);
      LinesSplitFirstLine(l, r);
      LinesConsLine(c, l, r);
    } else {
      assert '\n' !in [c] + y;
    }
  }

  lemma LinesConsLine(c: char, l: string, r: string)
    requires c != '\n' && '\n' !in l
    ensures Lines([c] + (l + "\n" + r)) == [[c] + l] + Lines(r)
  {
    assert [c] + (l + "\n" + r) == ([c] + l) + "\n" + r;
    assert '\n' !in [c] + l;
    LinesSplitFirstLine([c] + l, r);
  }

  lemma LinesBreakFirst(y: string)
    ensures Lines("\n" + y) == [[]] + Lines(y)
  {
    LinesSplitFirstLine([], y);
    assert [] + "\n" + y == "\n" + y;
  }

  /** After line 241 and 242, splitting at line feeds splits at every kind of line
      break: each `\r\n` and each lone `\r` ends exactly one line. */
  lemma {:induction false} LinesOfUnified(s: string)
    ensures Lines(UnifyLineEndings(s)) == SplitLineBreaks(s)
    decreases |s|
  {
    if s != [] {
      UnifyStep(s);
      if |s| >= 2 && s[0] == '\r' && s[1] == '\n' {
        LinesOfUnified(s[2..]);
        LinesBreakFirst(UnifyLineEndings(s[2..]));
      } else if s[0] == '\r' || s[0] == '\n' {
        LinesOfUnified(s[1..]);
        LinesBreakFirst(UnifyLineEndings(s[1..]));
      } else {
        LinesOfUnified(s[1..]);
        LinesCons(s[0], UnifyLineEndings(s[1..]));
      }
    }
  }

  // ---------------------------------------------------------------------------
  // What cleanLyrics computes

  /** Good lines joined by single line feeds hold no run of line feeds for line 249
      to collapse. */
  lemma JoinedLinesUntouched(ls: seq<string>)
    requires forall l | l in ls :: GoodLine(l)
    ensures CollapseLineFeedRuns(Unlines(ls)) == Unlines(ls)
  {
    UnlinesClean(ls);
    CleanTextNoDoubleLineFeed(Unlines(ls));
    CollapseLineFeedRunsKeeps(Unlines(ls));
  }

  /** Lines 243 and 244 change none of the lines kept by lines 245-247. */
  lemma KeptLinesBeforeSplit(unified: string)
    ensures KeptLines(Trim(CollapseBlankLines(unified))) == KeptLines(unified)
  {
    CollapseBlankLinesKeepsLines(unified);
    KeptLinesOfTrim(CollapseBlankLines(unified));
  }

  /** Cleaning is a filter on lines: after unifying line endings, every line is trimmed,
      lines left empty are dropped, and the rest are joined with single line feeds.
      In particular the blank lines the comment of line 243 means to keep as paragraph
      breaks do not survive, and the final replacement of line 249 never fires. */
  lemma CleanLyricsKeepsTrimmedLines(text: string)
    ensures CleanLyrics(text) == Unlines(KeptLines(UnifyLineEndings(text)))
    ensures CleanLyrics(text) == Unlines(DropEmpty(TrimEach(SplitLineBreaks(text))))
  {
    CleanUnified(UnifyLineEndings(text));
    LinesOfUnified(text);
  }

  lemma CleanUnified(unified: string)
    requires '\r' !in unified
    ensures CollapseLineFeedRuns(Unlines(KeptLines(Trim(CollapseBlankLines(unified)))))
         == Unlines(KeptLines(unified))
  {
    KeptLinesBeforeSplit(unified);
    KeptLinesJoinedUntouched(unified);
  }

  lemma KeptLinesJoinedUntouched(unified: string)
    requires '\r' !in unified
    ensures CollapseLineFeedRuns(Unlines(KeptLines(unified))) == Unlines(KeptLines(unified))
  {
    KeptLinesGood(unified);
    JoinedLinesUntouched(KeptLines(unified));
  }

  /** Cleaned text is clean. */
  lemma CleanLyricsIsClean(text: string)
    ensures IsCleanText(CleanLyrics(text))
  {
    CleanLyricsKeepsTrimmedLines(text);
    KeptLinesGood(UnifyLineEndings(text));
    UnlinesClean(KeptLines(UnifyLineEndings(text)));
  }

  lemma {:induction false} CleanTextLinesGood(c: string)
    requires IsCleanText(c) && c != []
    ensures forall l | l in Lines(c) :: GoodLine(l)
    decreases |c|
  {
    if '\n' in c {
      var i := IndexOf(c, '\n');
      CleanFirstLineGood(c, i);
      CleanRestClean(c, i);
      CleanTextLinesGood(c[i + 1..]);
    } else {
      assert Lines(c) == [c];
    }
  }

  lemma CleanFirstLineGood(c: string, i: nat)
    requires IsCleanText(c) && i < |c| && c[i] == '\n'
    requires forall j | 0 <= j < i :: c[j] != '\n'
    ensures GoodLine(c[..i])
  {
    var line := c[..i];
    assert line[0] == c[0] && line[i - 1] == c[i - 1];
    assert forall x | x in line :: x in c;
  }

  lemma CleanRestClean(c: string, i: nat)
    requires IsCleanText(c) && i < |c| && c[i] == '\n'
    ensures c[i + 1..] != [] && IsCleanText(c[i + 1..])
  {
    var rest := c[i + 1..];
    assert forall x | x in rest :: x in c;
    assert rest[0] == c[i + 1] && rest[|rest| - 1] == c[|c| - 1];
    assert forall j | 0 <= j < |rest| :: rest[j] == c[i + 1 + j];
  }

  lemma {:induction false} TrimEachKeepsGood(ls: seq<string>)
    requires forall l | l in ls :: GoodLine(l)
    ensures TrimEach(ls) == ls
    decreases |ls|
  {
    if ls != [] {
      assert GoodLine(ls[0]);
      TrimKeepsTrimmed(ls[0]);
      assert forall l | l in ls[1..] :: l in ls;
      TrimEachKeepsGood(ls[1..]);
      assert ls == [ls[0]] + ls[1..];
    }
  }

  /** Every line of clean text is kept as it is. */
  lemma KeptLinesOfClean(c: string)
    requires IsCleanText(c) && c != []
    ensures KeptLines(c) == Lines(c)
  {
    CleanTextLinesGood(c);
    TrimEachKeepsGood(Lines(c));
    DropEmptyKeepsNonEmpty(Lines(c));
  }

  lemma CleanTextUnchanged(c: string)
    requires IsCleanText(c)
    ensures CleanLyrics(c) == c
  {
    CleanLyricsKeepsTrimmedLines(c);
    UnifyLineEndingsKeeps(c);
    if c == [] {
      KeptLinesOfEmpty();
    } else {
      KeptLinesOfClean(c);
      UnlinesLines(c);
    }
  }

  /** The texts cleaning leaves unchanged are exactly the clean ones. */
  lemma CleanLyricsFixedPoints(c: string)
    ensures CleanLyrics(c) == c <==> IsCleanText(c)
  {
    CleanLyricsIsClean(c);
    if IsCleanText(c) {
      CleanTextUnchanged(c);
    }
  }

  /** Cleaning twice is cleaning once. */
  lemma CleanLyricsIdempotent(text: string)
    ensures CleanLyrics(CleanLyrics(text)) == CleanLyrics(text)
  {
    CleanLyricsIsClean(text);
    CleanLyricsFixedPoints(CleanLyrics(text));
  }

  /** Clean text has no blank line, so the blank-line pattern of `looksLikeLyrics`
      never matches text the scraper has cleaned. */
  lemma CleanTextHasNoBlankLine(c: string)
    requires IsCleanText(c)
    ensures !HasBlankLine(c)
  {
    forall i, j | 0 <= i < j < |c| && c[i] == '\n' && c[j] == '\n'
      ensures exists k | i < k < j :: !IsSpace(c[k])
    {
      assert i + 1 < j && !IsSpace(c[i + 1]);
    }
  }

  /** Two line feeds in a row make a blank line wherever they stand. */
  lemma BlankLineInside(x: string, r: string, y: string)
    ensures HasBlankLine(x + ("\n\n" + r + y))
  {
    var s := x + ("\n\n" + r + y);
    assert s[|x|] == '\n' && s[|x| + 1] == '\n';
  }

  lemma BlankLineLooksLikeLyrics(s: string)
    requires |s| >= MinLyricsLength && HasBlankLine(s)
    ensures LooksLikeLyrics(s)
  {
  }

  /** Text with a blank line is not in cleaned form. */
  lemma BlankLineNotClean(s: string)
    requires HasBlankLine(s)
    ensures !IsCleanText(s)
  {
    if IsCleanText(s) {
      CleanTextHasNoBlankLine(s);
    }
  }

  lemma CleanedLyricsHaveNoBlankLine(text: string)
    ensures !HasBlankLine(CleanLyrics(text))
  {
    CleanLyricsIsClean(text);
    CleanTextHasNoBlankLine(CleanLyrics(text));
  }

  /** Two good lines joined by one line feed are in cleaned form. */
  lemma TwoGoodLinesClean(a: string, b: string)
    requires GoodLine(a) && GoodLine(b)
    ensures IsCleanText(a + "\n" + b)
  {
    var c := a + "\n" + b;
    assert forall i | 0 <= i < |a| :: c[i] == a[i];
    assert forall i | |a| < i < |c| :: c[i] == b[i - |a| - 1];
  }

  /** Whitespace at the end of a line is dropped: cleaning a line padded on the right,
      a line feed and a second line gives the two lines joined by one line feed. */
  lemma CleanLyricsDropsLinePadding(a: string, w: string, b: string)
    requires GoodLine(a) && GoodLine(b)
    requires AllSpace(w) && '\n' !in w && '\r' !in w
    ensures CleanLyrics(a + w + "\n" + b) == a + "\n" + b
  {
    var text := a + w + "\n" + b;
    assert '\r' !in text;
    UnifyLineEndingsKeeps(text);
    CleanLyricsKeepsTrimmedLines(text);
    KeptLinesSplit(a + w, b);
    LinePadRight(a, w);
    KeptLinesSplit(a, b);
    UnifyLineEndingsKeeps(a + "\n" + b);
    CleanLyricsKeepsTrimmedLines(a + "\n" + b);
    TwoGoodLinesClean(a, b);
    CleanTextUnchanged(a + "\n" + b);
  }
}
