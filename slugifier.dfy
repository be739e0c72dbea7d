/** `cleanForUrl` of the scraper: turns a title or an artist name into a URL path
    segment by a chain of replacements, one function per step below. */
module Slugifier {
  import opened JsStrings

  /** The lower-case form of one code unit under `String.prototype.toLowerCase`, for
      every character whose lower-case form can survive the filter of `DropSpecialChars`:
      ASCII capitals, Latin-1 capitals, the capitals of the accented letters folded by
      `FoldChar`, dotted capital I and the Kelvin and Angstrom signs. Any other character
      is kept as it is: its lower-case form is deleted by that filter either way. */
  function LowerChar(c: char): string {
    if 'A' <= c <= 'Z' || ('\U{00C0}' <= c <= '\U{00DE}' && c != '\U{00D7}') then
      [(c as int + 32) as char]
    else if (c == '\U{0100}' || c == '\U{0106}' || c == '\U{0112}' || c == '\U{0116}'
        || c == '\U{0118}' || c == '\U{012A}' || c == '\U{012E}' || c == '\U{0143}'
        || c == '\U{014C}' || c == '\U{016A}' || c == '\U{1EF2}') then
      [(c as int + 1) as char]
    else if c == '\U{0178}' then "\U{00FF}"
    else if c == '\U{0130}' then "i\U{0307}"
    else if c == '\U{212A}' then "k"
    else if c == '\U{212B}' then "\U{00E5}"
    else [c]
  }

  /** Step 1, `toLowerCase()`. */
  function LowerCase(s: string): string {
    if s == [] then [] else LowerChar(s[0]) + LowerCase(s[1..])
  }

  /** The eight diacritic classes, replaced one after the other; no replacement
      produces a character that a later class matches. */
  function FoldChar(c: char): char {
    if (c == '\U{00E0}' || c == '\U{00E1}' || c == '\U{00E2}' || c == '\U{00E4}'
        || c == '\U{00E6}' || c == '\U{00E3}' || c == '\U{00E5}' || c == '\U{0101}') then 'a'
    else if (c == '\U{00E8}' || c == '\U{00E9}' || c == '\U{00EA}' || c == '\U{00EB}'
        || c == '\U{0113}' || c == '\U{0117}' || c == '\U{0119}') then 'e'
    else if (c == '\U{00EE}' || c == '\U{00EF}' || c == '\U{00ED}' || c == '\U{012B}'
        || c == '\U{012F}' || c == '\U{00EC}') then 'i'
    else if (c == '\U{00F4}' || c == '\U{00F6}' || c == '\U{00F2}' || c == '\U{00F3}'
        || c == '\U{00F8}' || c == '\U{014D}' || c == '\U{00F5}') then 'o'
    else if (c == '\U{00FB}' || c == '\U{00FC}' || c == '\U{00F9}' || c == '\U{00FA}'
        || c == '\U{016B}') then 'u'
    else if (c == '\U{00FF}' || c == '\U{1EF3}' || c == '\U{00FD}') then 'y'
    else if (c == '\U{00F1}' || c == '\U{0144}') then 'n'
    else if (c == '\U{00E7}' || c == '\U{0107}') then 'c'
    else c
  }

  /** Steps 2 to 9, the diacritic replacements. */
  function FoldDiacritics(s: string): string {
    seq(|s|, i requires 0 <= i < |s| => FoldChar(s[i]))
  }

  predicate IsAlnum(c: char) {
    'a' <= c <= 'z' || '0' <= c <= '9'
  }

  predicate IsSlugChar(c: char) {
    IsAlnum(c) || c == '-'
  }

  /** The letters and digits of `s`, in order. */
  function Alnums(s: string): (r: string)
    ensures forall i | 0 <= i < |r| :: IsAlnum(r[i])
  {
    if s == [] then []
    else (if IsAlnum(s[0]) then [s[0]] else []) + Alnums(s[1..])
  }

  /** Step 10, `replace(/[^a-z0-9\s]/g, '')`: keeps letters, digits and whitespace and
      deletes every other character (nothing is put in its place). */
  function DropSpecialChars(s: string): (r: string)
    ensures SlugSource(r)
    ensures SlugSource(s) ==> r == s
    ensures forall c | c in r :: c in s
    ensures Alnums(r) == Alnums(s)
  {
    if s == [] then []
    else if IsAlnum(s[0]) || IsSpace(s[0]) then [s[0]] + DropSpecialChars(s[1..])
    else DropSpecialChars(s[1..])
  }

  /** Step 11, `replace(/\s+/g, '-')`: every maximal whitespace run becomes one hyphen. */
  function HyphenateSpaces(s: string): (r: string)
    decreases |s|
  {
    if s == [] then []
    else if IsSpace(s[0]) then "-" + HyphenateSpaces(TrimStart(s[1..]))
    else [s[0]] + HyphenateSpaces(s[1..])
  }

  /** Drops the leading run of hyphens. */
  function SkipHyphens(s: string): (r: string)
    ensures |r| <= |s|
  {
    if s != [] && s[0] == '-' then SkipHyphens(s[1..]) else s
  }

  /** Step 12, `replace(/-+/g, '-')`: every maximal hyphen run becomes one hyphen. */
  function CollapseHyphens(s: string): string
    decreases |s|
  {
    if s == [] then []
    else if s[0] == '-' then "-" + CollapseHyphens(SkipHyphens(s[1..]))
    else [s[0]] + CollapseHyphens(s[1..])
  }

  /** Step 13, `replace(/^-|-$/g, '')`: drops a hyphen at the start, then one at the end
      of what is left (a lone hyphen is matched once, by `^-`). */
  function StripEdgeHyphens(s: string): string {
    var t := if s != [] && s[0] == '-' then s[1..] else s;
    if t != [] && t[|t| - 1] == '-' then t[..|t| - 1] else t
  }

  /** The end of the word that starts at `i`: the first whitespace from `i` on. */
  function WordEnd(s: string, i: nat): (n: nat)
    requires i <= |s|
    ensures i <= n <= |s|
    ensures forall k | i <= k < n :: !IsSpace(s[k])
    ensures n < |s| ==> IsSpace(s[n])
    decreases |s| - i
  {
    if i < |s| && !IsSpace(s[i]) then WordEnd(s, i + 1) else i
  }

  /** The words of `s`: its maximal runs of characters other than whitespace, in order. */
  function Words(s: string): (ws: seq<string>)
    ensures forall k | 0 <= k < |ws| :: ws[k] != []
    ensures forall k, j | 0 <= k < |ws| && 0 <= j < |ws[k]| :: !IsSpace(ws[k][j]) && ws[k][j] in s
    decreases |s|
  {
    if s == [] then []
    else if IsSpace(s[0]) then Words(s[1..])
    else
      var n := WordEnd(s, 0);
      assert forall j | 0 <= j < n :: s[..n][j] == s[j];
      [s[..n]] + Words(s[n..])
  }

  /** `join('-')`. */
  function JoinHyphen(ws: seq<string>): string
    decreases |ws|
  {
    if ws == [] then []
    else if |ws| == 1 then ws[0]
    else ws[0] + "-" + JoinHyphen(ws[1..])
  }

  /** `cleanForUrl(str)`; the final `trim()` is step 14. */
  function CleanForUrl(str: string): string {
    Trim(StripEdgeHyphens(CollapseHyphens(HyphenateSpaces(
      DropSpecialChars(FoldDiacritics(LowerCase(str)))))))
  }

  predicate NoDoubleHyphen(s: string) {
    forall i | 0 <= i < |s| - 1 :: !(s[i] == '-' && s[i + 1] == '-')
  }

  /** A URL-safe slug: letters, digits and single hyphens, with no hyphen at either end. */
  predicate IsSlug(s: string) {
    (forall i | 0 <= i < |s| :: IsSlugChar(s[i]))
    && (s != [] ==> s[0] != '-' && s[|s| - 1] != '-')
    && NoDoubleHyphen(s)
  }

  // ---------------------------------------------------------------------------------
  // The shape each step leaves behind

  lemma AlnumsAppend(a: string, b: string)
    ensures Alnums(a + b) == Alnums(a) + Alnums(b)
  {
    if a == [] {
      assert a + b == b;
    } else {
      assert (a + b)[0] == a[0];
      assert (a + b)[1..] == a[1..] + b;
      AlnumsAppend(a[1..], b);
    }
  }

  lemma AlnumsOfSpaces(w: string)
    requires AllSpace(w)
    ensures Alnums(w) == []
  {
    if w != [] {
      AlnumsOfSpaces(w[1..]);
    }
  }

  lemma NoDoubleHyphenCons(c: char, h: string)
    requires NoDoubleHyphen(h)
    requires c == '-' ==> h == [] || h[0] != '-'
    ensures NoDoubleHyphen([c] + h)
  {
    var r := [c] + h;
    forall i | 0 <= i < |r| - 1 ensures !(r[i] == '-' && r[i + 1] == '-') {
      if i > 0 { assert r[i] == h[i - 1] && r[i + 1] == h[i]; }
    }
  }

  /** The whitespace run that step 11 replaces, and what follows it. */
  lemma SpaceRunSplit(s: string) returns (w: string)
    requires s != [] && IsSpace(s[0])
    ensures AllSpace(w) && s == w + TrimStart(s[1..])
  {
    assert s == [s[0]] + s[1..];
    var p := TrimStartParts(s[1..]);
    w := [s[0]] + p;
    AllSpaceConcat([s[0]], p);
    Assoc([s[0]], p, TrimStart(s[1..]));
  }

  predicate SlugSource(s: string) {
    forall i | 0 <= i < |s| :: IsAlnum(s[i]) || IsSpace(s[i])
  }

  lemma SlugSourceDrop(s: string, k: nat)
    requires SlugSource(s) && k <= |s|
    ensures SlugSource(s[k..])
  {
    assert forall i | 0 <= i < |s| - k :: s[k..][i] == s[k + i];
  }

  /** Hyphenating the output of step 10 gives letters, digits and isolated hyphens, and
      the first character is a hyphen exactly when the input starts with whitespace. */
  lemma {:induction false} HyphenateSpacesShape(s: string)
    requires SlugSource(s)
    ensures var r := HyphenateSpaces(s);
      (forall i | 0 <= i < |r| :: IsSlugChar(r[i]))
      && NoDoubleHyphen(r)
      && (s != [] ==> r != [] && (r[0] == '-' <==> IsSpace(s[0])))
    decreases |s|
  {
    if s != [] {
      var t := if IsSpace(s[0]) then TrimStart(s[1..]) else s[1..];
      SlugSourceDrop(s, 1);
      if IsSpace(s[0]) {
        SlugSourceDrop(s[1..], |s| - 1 - |t|);
      }
      HyphenateSpacesShape(t);
      var h := HyphenateSpaces(t);
      var c := if IsSpace(s[0]) then '-' else s[0];
      assert HyphenateSpaces(s) == [c] + h;
      NoDoubleHyphenCons(c, h);
    }
  }

  /** Step 11 keeps every letter and digit, in order. */
  lemma {:induction false} HyphenateSpacesKeepsAlnums(s: string)
    ensures Alnums(HyphenateSpaces(s)) == Alnums(s)
    decreases |s|
  {
    if s != [] {
      if IsSpace(s[0]) {
        var w := SpaceRunSplit(s);
        var u := TrimStart(s[1..]);
        HyphenateSpacesKeepsAlnums(u);
        AlnumsAppend(w, u);
        AlnumsOfSpaces(w);
        AlnumsAppend("-", HyphenateSpaces(u));
      } else {
        HyphenateSpacesKeepsAlnums(s[1..]);
        assert s == [s[0]] + s[1..];
        AlnumsAppend([s[0]], s[1..]);
        AlnumsAppend([s[0]], HyphenateSpaces(s[1..]));
      }
    }
  }

  /** Step 12 changes nothing once step 11 has run: hyphens are already isolated. */
  lemma {:induction false} CollapseHyphensKeepsIsolated(s: string)
    requires NoDoubleHyphen(s)
    ensures CollapseHyphens(s) == s
    decreases |s|
  {
    if s != [] {
      assert NoDoubleHyphen(s[1..]) by {
        forall i | 0 <= i < |s[1..]| - 1 ensures !(s[1..][i] == '-' && s[1..][i + 1] == '-') {
          assert s[1..][i] == s[i + 1] && s[1..][i + 1] == s[i + 2];
        }
      }
      CollapseHyphensKeepsIsolated(s[1..]);
      if s[0] == '-' {
        assert SkipHyphens(s[1..]) == s[1..];
      }
      assert s == [s[0]] + s[1..];
    }
  }

  /** Step 13 leaves a slug. */
  lemma StripEdgeHyphensShape(s: string)
    requires forall i | 0 <= i < |s| :: IsSlugChar(s[i])
    requires NoDoubleHyphen(s)
    ensures IsSlug(StripEdgeHyphens(s))
  {
    var t := if s != [] && s[0] == '-' then s[1..] else s;
    assert t != [] ==> t[0] != '-';
    assert NoDoubleHyphen(t) by {
      forall i | 0 <= i < |t| - 1 ensures !(t[i] == '-' && t[i + 1] == '-') {
        if t != s { assert t[i] == s[i + 1] && t[i + 1] == s[i + 2]; }
      }
    }
    if t != [] && t[|t| - 1] == '-' {
      assert |t| >= 2;
      assert t[|t| - 2] != '-';
    }
  }

  /** Step 13 deletes hyphens only. */
  lemma StripEdgeHyphensKeepsAlnums(s: string)
    ensures Alnums(StripEdgeHyphens(s)) == Alnums(s)
  {
    var t := if s != [] && s[0] == '-' then s[1..] else s;
    if s != [] && s[0] == '-' {
      assert s == "-" + t;
      AlnumsAppend("-", t);
    }
    if t != [] && t[|t| - 1] == '-' {
      var v := t[..|t| - 1];
      assert t == v + "-";
      AlnumsAppend(v, "-");
    }
  }

  lemma StripEdgeHyphensKeepsAlnumsOnly(a: string)
    requires forall i | 0 <= i < |a| :: IsAlnum(a[i])
    ensures StripEdgeHyphens(a) == a
  {
    if a != [] {
      assert IsAlnum(a[0]) && IsAlnum(a[|a| - 1]);
    }
  }

  /** Text without whitespace is not changed by trimming. */
  lemma TrimKeepsSlug(s: string)
    requires forall i | 0 <= i < |s| :: IsSlugChar(s[i])
    ensures Trim(s) == s
  {
    if s != [] {
      assert IsSlugChar(s[0]) && IsSlugChar(s[|s| - 1]);
    }
    TrimKeepsTrimmed(s);
  }

  // ---------------------------------------------------------------------------------
  // What `cleanForUrl` promises

  /** The slug holds only `a`-`z`, `0`-`9` and isolated hyphens, never a hyphen at an
      end, and exactly the letters and digits of the lower-cased, folded input. */
  lemma CleanForUrlIsSlug(str: string)
    ensures IsSlug(CleanForUrl(str))
    ensures Alnums(CleanForUrl(str)) == Alnums(FoldDiacritics(LowerCase(str)))
  {
    var k := DropSpecialChars(FoldDiacritics(LowerCase(str)));
    HyphenateSpacesShape(k);
    HyphenateSpacesKeepsAlnums(k);
    var h := HyphenateSpaces(k);
    CollapseHyphensKeepsIsolated(h);
    StripEdgeHyphensShape(h);
    StripEdgeHyphensKeepsAlnums(h);
    TrimKeepsSlug(StripEdgeHyphens(h));
  }

  /** The slug is empty exactly when the input has no letter or digit once lower-cased
      and folded: such a title still yields an empty slug, which is not skipped. */
  lemma CleanForUrlEmptyIff(str: string)
    ensures CleanForUrl(str) == [] <==> Alnums(FoldDiacritics(LowerCase(str))) == []
  {
    CleanForUrlIsSlug(str);
    var r := CleanForUrl(str);
    if r != [] {
      assert r[0] != '-' && IsSlugChar(r[0]);
      assert Alnums(r) != [] by {
        assert r == [r[0]] + r[1..];
        AlnumsAppend([r[0]], r[1..]);
      }
    }
  }

  /** Characters that lower-casing and folding leave alone. */
  predicate IsPlain(c: char) {
    IsSlugChar(c) || c == ' '
  }

  lemma PlainCharUnchanged(c: char)
    requires IsPlain(c)
    ensures LowerChar(c) == [c] && FoldChar(c) == c
  {
  }

  lemma {:induction false} LowerCaseKeepsPlain(s: string)
    requires forall i | 0 <= i < |s| :: IsPlain(s[i])
    ensures LowerCase(s) == s
  {
    if s != [] {
      LowerCaseKeepsPlain(s[1..]);
      PlainCharUnchanged(s[0]);
      assert s == [s[0]] + s[1..];
    }
  }

  lemma LowerAndFoldKeepPlain(s: string)
    requires forall i | 0 <= i < |s| :: IsPlain(s[i])
    ensures FoldDiacritics(LowerCase(s)) == s
  {
    LowerCaseKeepsPlain(s);
    forall i | 0 <= i < |s| ensures FoldChar(s[i]) == s[i] {
      PlainCharUnchanged(s[i]);
    }
  }

  lemma {:induction false} DropSpecialCharsOfSlugChars(s: string)
    requires forall i | 0 <= i < |s| :: IsSlugChar(s[i])
    ensures DropSpecialChars(s) == Alnums(s)
  {
    if s != [] {
      DropSpecialCharsOfSlugChars(s[1..]);
    }
  }

  lemma {:induction false} HyphenateSpacesKeepsSpaceless(s: string)
    requires forall i | 0 <= i < |s| :: IsAlnum(s[i])
    ensures HyphenateSpaces(s) == s
  {
    if s != [] {
      HyphenateSpacesKeepsSpaceless(s[1..]);
      assert s == [s[0]] + s[1..];
    }
  }

  lemma KeptOfSlugChars(x: string)
    requires forall i | 0 <= i < |x| :: IsSlugChar(x[i])
    ensures DropSpecialChars(FoldDiacritics(LowerCase(x))) == Alnums(x)
  {
    forall i | 0 <= i < |x| ensures IsPlain(x[i]) { }
    LowerAndFoldKeepPlain(x);
    DropSpecialCharsOfSlugChars(x);
  }

  /** Applied to slug characters, `cleanForUrl` only deletes the hyphens (line 271 treats
      `-` as a special character). */
  lemma CleanForUrlOfSlugChars(x: string)
    requires forall i | 0 <= i < |x| :: IsSlugChar(x[i])
    ensures CleanForUrl(x) == Alnums(x)
  {
    assert CleanForUrl(x) == Trim(StripEdgeHyphens(CollapseHyphens(HyphenateSpaces(Alnums(x))))) by {
      KeptOfSlugChars(x);
    }
    LaterStepsKeepAlnums(Alnums(x));
  }

  /** Steps 11 to 14 change nothing in a string of letters and digits. */
  lemma LaterStepsKeepAlnums(a: string)
    requires forall i | 0 <= i < |a| :: IsAlnum(a[i])
    ensures Trim(StripEdgeHyphens(CollapseHyphens(HyphenateSpaces(a)))) == a
  {
    HyphenateSpacesKeepsSpaceless(a);
    EdgeStepsKeepAlnums(a);
  }

  lemma EdgeStepsKeepAlnums(a: string)
    requires forall i | 0 <= i < |a| :: IsAlnum(a[i])
    ensures Trim(StripEdgeHyphens(CollapseHyphens(a))) == a
  {
    CollapseHyphensKeepsIsolated(a);
    StripEdgeHyphensKeepsAlnumsOnly(a);
    TrimKeepsSlug(a);
  }

  /** `cleanForUrl` is not idempotent: a second application deletes the hyphens of the
      first, so it is a fixed point exactly on slugs without hyphens. */
  lemma CleanForUrlTwice(str: string)
    ensures CleanForUrl(CleanForUrl(str)) == Alnums(CleanForUrl(str))
    ensures CleanForUrl(CleanForUrl(str)) == CleanForUrl(str) <==> '-' !in CleanForUrl(str)
  {
    var r := CleanForUrl(str);
    CleanForUrlIsSlug(str);
    CleanForUrlOfSlugChars(r);
    if '-' in r {
      assert '-' !in Alnums(r);
    } else {
      AlnumsOfAlnums(r);
    }
  }

  lemma {:induction false} AlnumsOfAlnums(s: string)
    requires forall i | 0 <= i < |s| :: IsSlugChar(s[i])
    requires '-' !in s
    ensures Alnums(s) == s
  {
    if s != [] {
      AlnumsOfAlnums(s[1..]);
      assert s == [s[0]] + s[1..];
    }
  }

  // ---------------------------------------------------------------------------------
  // Where the hyphens go

  /** Step 10 works character by character. */
  lemma {:induction false} DropSpecialCharsAppend(a: string, b: string)
    ensures DropSpecialChars(a + b) == DropSpecialChars(a) + DropSpecialChars(b)
    decreases |a|
  {
    if a == [] {
      assert a + b == b;
    } else {
      var c, t := a[0], a[1..];
      assert a + b == [c] + (t + b) && a == [c] + t;
      DropSpecialCharsAppend(t, b);
      DropSpecialCharsCons(c, t + b);
      DropSpecialCharsCons(c, t);
      Assoc([c], DropSpecialChars(t), DropSpecialChars(b));
    }
  }

  lemma DropSpecialCharsCons(c: char, t: string)
    ensures DropSpecialChars([c] + t)
      == (if IsAlnum(c) || IsSpace(c) then [c] else []) + DropSpecialChars(t)
  {
    assert ([c] + t)[0] == c && ([c] + t)[1..] == t;
  }

  /** Step 11 copies a word unchanged. */
  lemma {:induction false} HyphenateWord(w: string, rest: string)
    requires forall j | 0 <= j < |w| :: !IsSpace(w[j])
    ensures HyphenateSpaces(w + rest) == w + HyphenateSpaces(rest)
    decreases |w|
  {
    if w == [] {
      assert w + rest == rest;
    } else {
      HyphenateWord(w[1..], rest);
      assert w == [w[0]] + w[1..];
      Assoc([w[0]], w[1..], rest);
      HyphenateCons(w[0], w[1..] + rest);
      Assoc([w[0]], w[1..], HyphenateSpaces(rest));
    }
  }

  /** Leading whitespace does not change the words. */
  lemma {:induction false} WordsSkipSpace(s: string)
    ensures Words(TrimStart(s)) == Words(s)
    decreases |s|
  {
    if s == [] || !IsSpace(s[0]) {
      TrimStartUnpadded(s);
    } else {
      TrimStartCons(s);
      WordsSkipSpace(s[1..]);
    }
  }

  /** Step 11 gives the words joined by single hyphens, with one more hyphen in front
      exactly when the text starts with whitespace, and possibly one at the end. */
  lemma {:induction false} HyphenateWords(s: string) returns (lead: string, trail: string)
    ensures lead == [] || lead == "-"
    ensures trail == [] || trail == "-"
    ensures HyphenateSpaces(s) == lead + JoinHyphen(Words(s)) + trail
    ensures lead == "-" <==> s != [] && IsSpace(s[0])
    ensures Words(s) == [] ==> trail == []
    decreases |s|
  {
    if s == [] {
      lead, trail := [], [];
    } else if IsSpace(s[0]) {
      var u := TrimStart(s[1..]);
      var lead', trail' := HyphenateWords(u);
      lead, trail := "-", trail';
      HyphenateAfterSpace(s, trail');
    } else {
      var w, rest := FirstWord(s);
      var lead', trail' := HyphenateWords(rest);
      lead := [];
      trail := HyphenateAfterWord(w, rest, lead', trail');
    }
  }

  /** The space case of `HyphenateWords`: the run becomes the leading hyphen. */
  lemma HyphenateAfterSpace(s: string, trail: string)
    requires s != [] && IsSpace(s[0])
    requires HyphenateSpaces(TrimStart(s[1..])) == [] + JoinHyphen(Words(TrimStart(s[1..]))) + trail
    ensures HyphenateSpaces(s) == "-" + JoinHyphen(Words(s)) + trail
  {
    WordsSkipSpace(s[1..]);
    EmptyUnit(JoinHyphen(Words(s)));
    Assoc("-", JoinHyphen(Words(s)), trail);
  }

  /** The word case of `HyphenateWords`: the word is copied, and the hyphen that follows
      it joins it to the next word or ends the text. */
  lemma HyphenateAfterWord(w: string, rest: string, lead: string, trail: string) returns (trail': string)
    requires w != [] && forall j | 0 <= j < |w| :: !IsSpace(w[j])
    requires lead == [] || lead == "-"
    requires lead == "-" <==> rest != [] && IsSpace(rest[0])
    requires rest == [] || IsSpace(rest[0])
    requires HyphenateSpaces(rest) == lead + JoinHyphen(Words(rest)) + trail
    requires trail == [] || trail == "-"
    requires Words(rest) == [] ==> trail == []
    ensures trail' == [] || trail' == "-"
    ensures HyphenateSpaces(w + rest) == [] + JoinHyphen([w] + Words(rest)) + trail'
  {
    HyphenateWord(w, rest);
    if Words(rest) == [] {
      trail' := if rest == [] then [] else "-";
      assert HyphenateSpaces(rest) == trail';
      assert JoinHyphen([w] + Words(rest)) == w by {
        EmptyUnit([w]);
      }
      EmptyUnit(w);
    } else {
      trail' := trail;
      JoinHyphenCons(w, Words(rest));
      Assoc4(w, "-", JoinHyphen(Words(rest)), trail);
      EmptyUnit(JoinHyphen([w] + Words(rest)));
    }
  }

  /** A text that starts with a word is that word, then whitespace or nothing. */
  lemma FirstWord(s: string) returns (w: string, rest: string)
    requires s != [] && !IsSpace(s[0])
    ensures w != [] && forall j | 0 <= j < |w| :: !IsSpace(w[j])
    ensures s == w + rest && (rest == [] || IsSpace(rest[0]))
    ensures Words(s) == [w] + Words(rest)
  {
    var n := WordEnd(s, 0);
    w, rest := s[..n], s[n..];
    assert forall j | 0 <= j < |w| :: w[j] == s[j];
  }

  lemma JoinHyphenCons(w: string, ws: seq<string>)
    requires ws != []
    ensures JoinHyphen([w] + ws) == w + "-" + JoinHyphen(ws)
  {
    assert ([w] + ws)[1..] == ws;
  }

  /** Words of letters and digits, joined with hyphens, start and end with a letter or
      a digit. */
  lemma {:induction false} JoinHyphenEnds(ws: seq<string>)
    requires forall k | 0 <= k < |ws| :: ws[k] != []
    requires forall k, j | 0 <= k < |ws| && 0 <= j < |ws[k]| :: IsAlnum(ws[k][j])
    ensures JoinHyphen(ws) == [] <==> ws == []
    ensures JoinHyphen(ws) != [] ==>
      IsAlnum(JoinHyphen(ws)[0]) && IsAlnum(JoinHyphen(ws)[|JoinHyphen(ws)| - 1])
    decreases |ws|
  {
    if |ws| > 1 {
      JoinHyphenEnds(ws[1..]);
      assert IsAlnum(ws[0][0]);
    } else if |ws| == 1 {
      assert IsAlnum(ws[0][0]) && IsAlnum(ws[0][|ws[0]| - 1]);
    }
  }

  /** Step 13 drops exactly the hyphens added around a text that starts and ends with
      something other than a hyphen. */
  lemma StripWrapped(lead: string, m: string, trail: string)
    requires lead == [] || lead == "-"
    requires trail == [] || trail == "-"
    requires m == [] || (m[0] != '-' && m[|m| - 1] != '-')
    ensures StripEdgeHyphens(lead + m + trail) == m
  {
    if m != [] {
      var s := lead + m + trail;
      assert s[0] == '-' <==> lead == "-";
      assert (if s[0] == '-' then s[1..] else s) == m + trail;
    }
  }

  /** The words of the output of step 10 are made of letters and digits. */
  lemma WordsOfSlugSource(s: string)
    requires SlugSource(s)
    ensures forall k, j | 0 <= k < |Words(s)| && 0 <= j < |Words(s)[k]| :: IsAlnum(Words(s)[k][j])
  {
  }

  lemma JoinedWordsEnds(k: string)
    requires SlugSource(k)
    ensures var m := JoinHyphen(Words(k));
      m == [] || (IsAlnum(m[0]) && IsAlnum(m[|m| - 1]))
  {
    WordsOfSlugSource(k);
    JoinHyphenEnds(Words(k));
  }

  /** Each whitespace run between two words becomes one hyphen, and whitespace at either
      end disappears: the slug is the words of the filtered text joined by hyphens. */
  lemma CleanForUrlJoinsWords(str: string)
    ensures CleanForUrl(str) == JoinHyphen(Words(DropSpecialChars(FoldDiacritics(LowerCase(str)))))
  {
    LaterStepsJoinWords(DropSpecialChars(FoldDiacritics(LowerCase(str))));
  }

  /** Steps 11 to 14 join the words of the output of step 10 with hyphens. */
  lemma LaterStepsJoinWords(k: string)
    requires SlugSource(k)
    ensures Trim(StripEdgeHyphens(CollapseHyphens(HyphenateSpaces(k)))) == JoinHyphen(Words(k))
  {
    HyphenatedIsolated(k);
    StripHyphenated(k);
    JoinedWordsEnds(k);
    TrimKeepsTrimmed(JoinHyphen(Words(k)));
  }

  lemma HyphenatedIsolated(k: string)
    requires SlugSource(k)
    ensures CollapseHyphens(HyphenateSpaces(k)) == HyphenateSpaces(k)
  {
    HyphenateSpacesShape(k);
    CollapseHyphensKeepsIsolated(HyphenateSpaces(k));
  }

  lemma StripHyphenated(k: string)
    requires SlugSource(k)
    ensures StripEdgeHyphens(HyphenateSpaces(k)) == JoinHyphen(Words(k))
  {
    JoinedWordsEnds(k);
    var lead, trail := HyphenateWords(k);
    StripWrapped(lead, JoinHyphen(Words(k)), trail);
  }

  lemma KeptOfTwoLetters(a: char, b: char)
    requires IsAlnum(a) && IsAlnum(b)
    ensures DropSpecialChars(FoldDiacritics(LowerCase([a, ' ', b]))) == [a, ' ', b]
  {
    LowerAndFoldKeepPlain([a, ' ', b]);
    assert [a, ' ', b][1..] == [' ', b] && [' ', b][1..] == [b];
  }

  lemma HyphenateCons(c: char, t: string)
    requires !IsSpace(c)
    ensures HyphenateSpaces([c] + t) == [c] + HyphenateSpaces(t)
  {
    assert ([c] + t)[1..] == t;
  }

  lemma HyphenateSpaceCons(c: char, t: string)
    requires IsSpace(c)
    ensures HyphenateSpaces([c] + t) == "-" + HyphenateSpaces(TrimStart(t))
  {
    assert ([c] + t)[1..] == t;
  }

  /** Two words around one space become two words around one hyphen. */
  lemma HyphenateTwoWords(x: string, y: string)
    requires forall j | 0 <= j < |x| :: !IsSpace(x[j])
    requires y != [] && forall j | 0 <= j < |y| :: !IsSpace(y[j])
    ensures HyphenateSpaces(x + " " + y) == x + "-" + y
  {
    HyphenateWord(y, []);
    assert y + [] == y;
    TrimStartUnpadded(y);
    HyphenateSpaceCons(' ', y);
    HyphenateWord(x, " " + y);
    Assoc(x, " ", y);
    Assoc(x, "-", y);
  }

  lemma HyphenateTwoLetters(a: char, b: char)
    requires IsAlnum(a) && IsAlnum(b)
    ensures HyphenateSpaces([a, ' ', b]) == [a, '-', b]
  {
    HyphenateTwoWords([a], [b]);
    assert [a] + " " + [b] == [a, ' ', b];
    assert [a] + "-" + [b] == [a, '-', b];
  }

  /** Steps 12 to 14 leave a slug unchanged. */
  lemma EdgeStepsKeepSlug(m: string)
    requires IsSlug(m)
    ensures Trim(StripEdgeHyphens(CollapseHyphens(m))) == m
  {
    CollapseHyphensKeepsIsolated(m);
    TrimKeepsSlug(m);
  }

  lemma CleanForUrlOfTwoLetters(a: char, b: char)
    requires IsAlnum(a) && IsAlnum(b)
    ensures CleanForUrl([a, ' ', b]) == [a, '-', b]
  {
    var m := [a, '-', b];
    assert HyphenateSpaces(DropSpecialChars(FoldDiacritics(LowerCase([a, ' ', b])))) == m by {
      KeptOfTwoLetters(a, b);
      HyphenateTwoLetters(a, b);
    }
    assert IsSlug(m);
    EdgeStepsKeepSlug(m);
  }

  /** A witness for every pair of letters or digits: "a b" becomes "a-b", and "a-b"
      becomes "ab". */
  lemma CleanForUrlNotIdempotent(a: char, b: char)
    requires IsAlnum(a) && IsAlnum(b)
    ensures CleanForUrl([a, ' ', b]) == [a, '-', b]
    ensures CleanForUrl([a, '-', b]) == [a, b]
    ensures CleanForUrl(CleanForUrl([a, ' ', b])) != CleanForUrl([a, ' ', b])
  {
    CleanForUrlOfTwoLetters(a, b);
    CleanForUrlOfHyphenPair(a, b);
    assert |[a, b]| != |[a, '-', b]|;
  }

  lemma CleanForUrlOfHyphenPair(a: char, b: char)
    requires IsAlnum(a) && IsAlnum(b)
    ensures CleanForUrl([a, '-', b]) == [a, b]
  {
    CleanForUrlOfSlugChars([a, '-', b]);
    AlnumsOfTwoLetters(a, b);
  }

  lemma AlnumsOfTwoLetters(a: char, b: char)
    requires IsAlnum(a) && IsAlnum(b)
    ensures Alnums([a, '-', b]) == [a, b]
  {
    assert Alnums([b]) == [b] by { assert [b][1..] == []; }
    assert Alnums(['-', b]) == [b] by { assert ['-', b][1..] == [b]; }
    assert [a, '-', b][1..] == ['-', b];
  }
}
