/** Character classes and string operations with the meaning JavaScript gives them.
    A Dafny `char` is a Unicode scalar value; for a character of the Basic Multilingual
    Plane it stands for one UTF-16 code unit of a JavaScript string. */
module JsStrings {

  /** The characters `\s` matches in a regular expression. `String.prototype.trim`
      strips exactly this set (WhiteSpace and LineTerminator of ECMAScript). */
  predicate IsSpace(c: char) {
    c == ' ' || ('\t' <= c <= '\r') || c == '\U{00A0}' || c == '\U{1680}'
    || ('\U{2000}' <= c <= '\U{200A}') || c == '\U{2028}' || c == '\U{2029}'
    || c == '\U{202F}' || c == '\U{205F}' || c == '\U{3000}' || c == '\U{FEFF}'
  }

  /** The characters `.` does not match in a regular expression without the `s` flag. */
  predicate IsLineTerminator(c: char) {
    c == '\n' || c == '\r' || c == '\U{2028}' || c == '\U{2029}'
  }

  predicate AllSpace(s: string) {
    forall i | 0 <= i < |s| :: IsSpace(s[i])
  }

  /** The end of the run of whitespace that starts at `i`. */
  function SpaceRunEnd(s: string, i: nat): (n: nat)
    requires i <= |s|
    ensures i <= n <= |s|
    ensures forall k | i <= k < n :: IsSpace(s[k])
    ensures n < |s| ==> !IsSpace(s[n])
    decreases |s| - i
  {
    if i < |s| && IsSpace(s[i]) then SpaceRunEnd(s, i + 1) else i
  }

  /** The start of the run of whitespace that ends at `j`. */
  function SpaceRunStart(s: string, j: nat): (n: nat)
    requires j <= |s|
    ensures n <= j
    ensures forall k | n <= k < j :: IsSpace(s[k])
    ensures 0 < n ==> !IsSpace(s[n - 1])
  {
    if 0 < j && IsSpace(s[j - 1]) then SpaceRunStart(s, j - 1) else j
  }

  /** A run of whitespace from `i` that stops at `n` ends at `n`. */
  lemma {:induction false} SpaceRunEndIs(s: string, i: nat, n: nat)
    requires i <= n <= |s|
    requires forall k | i <= k < n :: IsSpace(s[k])
    requires n < |s| ==> !IsSpace(s[n])
    ensures SpaceRunEnd(s, i) == n
    decreases n - i
  {
    if i < n {
      SpaceRunEndIs(s, i + 1, n);
    }
  }

  /** A run of whitespace up to `j` that starts at `n` starts at `n`. */
  lemma {:induction false} SpaceRunStartIs(s: string, j: nat, n: nat)
    requires n <= j <= |s|
    requires forall k | n <= k < j :: IsSpace(s[k])
    requires 0 < n ==> !IsSpace(s[n - 1])
    ensures SpaceRunStart(s, j) == n
    decreases j - n
  {
    if n < j {
      SpaceRunStartIs(s, j - 1, n);
    }
  }

  /** Drops the leading run of whitespace. */
  function TrimStart(s: string): (r: string)
    ensures |r| <= |s| && r == s[|s| - |r|..]
    ensures AllSpace(s[..|s| - |r|])
    ensures r != [] ==> !IsSpace(r[0])
  {
    var n := SpaceRunEnd(s, 0);
    assert forall k | 0 <= k < n :: s[..n][k] == s[k];
    s[n..]
  }

  /** The whitespace that `TrimStart` drops. */
  lemma TrimStartParts(s: string) returns (p: string)
    ensures AllSpace(p) && s == p + TrimStart(s)
  {
    p := s[..|s| - |TrimStart(s)|];
  }

  /** Text that does not start with whitespace is left alone. */
  lemma TrimStartUnpadded(s: string)
    requires s == [] || !IsSpace(s[0])
    ensures TrimStart(s) == s
  {
  }

  /** A leading whitespace character is dropped with the rest of the run. */
  lemma TrimStartCons(s: string)
    requires s != [] && IsSpace(s[0])
    ensures TrimStart(s) == TrimStart(s[1..])
  {
    var t := s[1..];
    var m := SpaceRunEnd(t, 0);
    forall k | 0 <= k < m + 1 ensures IsSpace(s[k]) {
      if k > 0 { assert s[k] == t[k - 1]; }
    }
    if m + 1 < |s| { assert s[m + 1] == t[m]; }
    SpaceRunEndIs(s, 0, m + 1);
    assert s[m + 1..] == t[m..];
  }

  /** `String.prototype.trim`: drops the leading and the trailing run of whitespace. */
  function Trim(s: string): (r: string)
    ensures r == [] || (!IsSpace(r[0]) && !IsSpace(r[|r| - 1]))
  {
    var a, b := SpaceRunEnd(s, 0), SpaceRunStart(s, |s|);
    if b <= a then [] else s[a..b]
  }

  lemma AllSpaceBefore(s: string, n: nat)
    requires n <= |s| && forall k | 0 <= k < n :: IsSpace(s[k])
    ensures AllSpace(s[..n])
  {
    assert forall k | 0 <= k < n :: s[..n][k] == s[k];
  }

  lemma AllSpaceFrom(s: string, n: nat)
    requires n <= |s| && forall k | n <= k < |s| :: IsSpace(s[k])
    ensures AllSpace(s[n..])
  {
    assert forall k | n <= k < |s| :: s[n..][k - n] == s[k];
  }

  // ---------------------------------------------------------------------------------
  // Regrouping sequences. The solver does not find these by itself inside larger proofs.

  lemma SplitAt<T>(s: seq<T>, a: nat, b: nat)
    requires a <= b <= |s|
    ensures s == s[..a] + s[a..b] + s[b..]
  {
  }

  lemma ConsSplit<T>(s: seq<T>)
    requires s != []
    ensures s == [s[0]] + s[1..]
  {
  }

  lemma EmptyUnit<T>(x: seq<T>)
    ensures [] + x == x && x + [] == x
  {
  }

  lemma Assoc<T>(a: seq<T>, b: seq<T>, c: seq<T>)
    ensures a + b + c == a + (b + c)
  {
  }

  lemma Assoc4<T>(a: seq<T>, b: seq<T>, c: seq<T>, d: seq<T>)
    ensures a + (b + c + d) == a + b + c + d
    ensures a + b + c + d == a + b + (c + d)
  {
  }

  lemma Regroup<T>(p: seq<T>, a: seq<T>, m: seq<T>, b: seq<T>, q: seq<T>)
    ensures p + (a + m + b) + q == (p + a) + m + (b + q)
  {
  }

  /** `s` is its trimmed text with whitespace on either side. */
  lemma TrimSplits(s: string) returns (d: nat)
    ensures d + |Trim(s)| <= |s| && s == s[..d] + Trim(s) + s[d + |Trim(s)|..]
    ensures AllSpace(s[..d]) && AllSpace(s[d + |Trim(s)|..])
  {
    var a, b := SpaceRunEnd(s, 0), SpaceRunStart(s, |s|);
    if b <= a {
      d := |s|;
      AllSpaceBefore(s, a);
      assert s[..d] + [] + s[d..] == s;
    } else {
      d := a;
      AllSpaceBefore(s, a);
      AllSpaceFrom(s, b);
      SplitAt(s, a, b);
    }
  }

  /** Trimming is determined by the decomposition into whitespace, a core whose ends
      are not whitespace, and whitespace. */
  lemma TrimOfPadded(p: string, m: string, q: string)
    requires AllSpace(p) && AllSpace(q)
    requires m == [] || (!IsSpace(m[0]) && !IsSpace(m[|m| - 1]))
    ensures Trim(p + m + q) == m
  {
    var s := p + m + q;
    var i, j := |p|, |p| + |m|;
    assert forall k | 0 <= k < i :: s[k] == p[k];
    assert forall k | j <= k < |s| :: s[k] == q[k - j];
    if m == [] {
      SpaceRunEndIs(s, 0, |s|);
    } else {
      assert s[i] == m[0] && s[j - 1] == m[|m| - 1];
      SpaceRunEndIs(s, 0, i);
      SpaceRunStartIs(s, |s|, j);
      assert s[i..j] == m;
    }
  }

  /** Trimming leaves text that has no whitespace at either end unchanged. */
  lemma TrimKeepsTrimmed(s: string)
    requires s == [] || (!IsSpace(s[0]) && !IsSpace(s[|s| - 1]))
    ensures Trim(s) == s
  {
    TrimOfPadded([], s, []);
    assert [] + s + [] == s;
  }

  lemma AllSpaceConcat(a: string, b: string)
    requires AllSpace(a) && AllSpace(b)
    ensures AllSpace(a + b)
  {
    forall i | 0 <= i < |a + b| ensures IsSpace((a + b)[i]) {
      if i >= |a| { assert (a + b)[i] == b[i - |a|]; }
    }
  }

  /** Whitespace added on either side is removed again by trimming. */
  lemma TrimIgnoresPadding(p: string, s: string, q: string)
    requires AllSpace(p) && AllSpace(q)
    ensures Trim(p + s + q) == Trim(s)
  {
    var d := TrimSplits(s);
    var m := Trim(s);
    var p', q' := s[..d], s[d + |m|..];
    AllSpaceConcat(p, p');
    AllSpaceConcat(q', q);
    assert s == p' + m + q';
    Regroup(p, p', m, q', q);
    TrimOfPadded(p + p', m, q' + q);
  }

  lemma TrimIgnoresLeftPadding(p: string, s: string)
    requires AllSpace(p)
    ensures Trim(p + s) == Trim(s)
  {
    var d := TrimSplits(s);
    var p', q' := s[..d], s[d + |Trim(s)|..];
    AllSpaceConcat(p, p');
    Assoc4(p, p', Trim(s), q');
    TrimOfPadded(p + p', Trim(s), q');
  }

  lemma TrimIgnoresRightPadding(s: string, q: string)
    requires AllSpace(q)
    ensures Trim(s + q) == Trim(s)
  {
    var d := TrimSplits(s);
    var p', q' := s[..d], s[d + |Trim(s)|..];
    AllSpaceConcat(q', q);
    Assoc4(p', Trim(s), q', q);
    TrimOfPadded(p', Trim(s), q' + q);
  }

  /** True when `sub` occurs in `s` starting at index `i`. */
  predicate OccursAt(s: string, i: nat, sub: string) {
    i + |sub| <= |s| && s[i..i + |sub|] == sub
  }

  /** An occurrence stays where it is when text is appended. */
  lemma OccursBeforeRest(s: string, rest: string, i: nat, sub: string)
    requires OccursAt(s, i, sub)
    ensures OccursAt(s + rest, i, sub)
  {
    assert (s + rest)[i..i + |sub|] == s[i..i + |sub|];
  }

  /** An occurrence moves by the length of text put in front. */
  lemma OccursAfterPrefix(p: string, s: string, i: nat, sub: string)
    requires OccursAt(s, i, sub)
    ensures OccursAt(p + s, |p| + i, sub)
  {
    assert (p + s)[|p| + i..|p| + i + |sub|] == s[i..i + |sub|];
  }

  /** `String.prototype.includes`. */
  predicate Contains(s: string, sub: string) {
    exists i | 0 <= i <= |s| :: OccursAt(s, i, sub)
  }

  lemma ContainsAfterPrefix(p: string, s: string, sub: string)
    requires Contains(s, sub)
    ensures Contains(p + s, sub)
  {
    var i :| 0 <= i <= |s| && OccursAt(s, i, sub);
    OccursAfterPrefix(p, s, i, sub);
  }

  lemma ContainsBeforeRest(s: string, rest: string, sub: string)
    requires Contains(s, sub)
    ensures Contains(s + rest, sub)
  {
    var i :| 0 <= i <= |s| && OccursAt(s, i, sub);
    OccursBeforeRest(s, rest, i, sub);
  }
}
