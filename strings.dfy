/**
 * The Python `str` operations the bot relies on, over `seq<char>`.
 * Case mapping (`lower`, `upper`, `title`) is modelled on ASCII letters only.
 */
module Strings {
  import opened Wrappers

  /** The characters Python's `str.isspace` accepts, which `str.strip()` removes. */
  predicate IsSpace(c: char) {
    || ('\t' <= c <= '\r')
    || ('\U{1C}' <= c <= '\U{20}')
    || c == '\U{85}' || c == '\U{A0}' || c == '\U{1680}'
    || ('\U{2000}' <= c <= '\U{200A}')
    || c == '\U{2028}' || c == '\U{2029}' || c == '\U{202F}' || c == '\U{205F}' || c == '\U{3000}'
  }

  predicate AllSpace(s: string) {
    forall i :: 0 <= i < |s| ==> IsSpace(s[i])
  }

  /** True when `s` has no leading or trailing whitespace (so `s.strip() == s`). */
  predicate Trimmed(s: string) {
    s == [] || (!IsSpace(s[0]) && !IsSpace(s[|s| - 1]))
  }

  /** Python's `s.lstrip()`. What it keeps and removes is stated by `LStripKeeps`. */
  function LStrip(s: string): (r: string)
    ensures |r| <= |s|
  {
    if |s| > 0 && IsSpace(s[0]) then LStrip(s[1..]) else s
  }

  /** `lstrip()` keeps a suffix of `s` that does not start with whitespace and drops only whitespace. */
  lemma {:induction false} LStripKeeps(s: string)
    ensures var r := LStrip(s);
      && r == s[|s| - |r|..]
      && AllSpace(s[..|s| - |r|])
      && (r == [] || !IsSpace(r[0]))
  {
    if |s| > 0 && IsSpace(s[0]) {
      var t := LStrip(s[1..]);
      LStripKeeps(s[1..]);
      assert s[1..][..|s[1..]| - |t|] == s[1..|s| - |t|];
    }
  }

  /** Python's `s.rstrip()`. What it keeps and removes is stated by `RStripKeeps`. */
  function RStrip(s: string): (r: string)
    ensures |r| <= |s|
  {
    if |s| > 0 && IsSpace(s[|s| - 1]) then RStrip(s[..|s| - 1]) else s
  }

  /** `rstrip()` keeps a prefix of `s` that does not end with whitespace and drops only whitespace. */
  lemma {:induction false} RStripKeeps(s: string)
    ensures var r := RStrip(s);
      && r == s[..|r|]
      && AllSpace(s[|r|..])
      && (r == [] || !IsSpace(r[|r| - 1]))
  {
    if |s| > 0 && IsSpace(s[|s| - 1]) {
      var t := RStrip(s[..|s| - 1]);
      RStripKeeps(s[..|s| - 1]);
      assert s[..|s| - 1][|t|..] == s[|t|..|s| - 1];
    }
  }

  /** Python's `s.strip()`: the longest slice of `s` without surrounding whitespace. */
  function Strip(s: string): (r: string)
    ensures Trimmed(r) && |r| <= |s|
  {
    LStripKeeps(s);
    RStripKeeps(LStrip(s));
    RStrip(LStrip(s))
  }

  /** What `strip()` removes is whitespace at both ends: the result is a slice of `s` framed by whitespace. */
  lemma StripIsSlice(s: string)
    ensures var r := Strip(s);
      exists i :: 0 <= i <= |s| - |r| && r == s[i..i + |r|] && AllSpace(s[..i]) && AllSpace(s[i + |r|..])
  {
    var l := LStrip(s);
    var r := RStrip(l);
    LStripKeeps(s);
    RStripKeeps(l);
    var i := |s| - |l|;
    assert r == s[i..i + |r|];
    assert s[i + |r|..] == l[|r|..];
  }

  /** `strip()` introduces no character. */
  lemma StripChars(s: string, c: char)
    requires c in Strip(s)
    ensures c in s
  {
    StripIsSlice(s);
  }

  /** Stripping a trimmed text framed by whitespace gives that text back. */
  lemma {:induction false} StripFramed(a: string, b: string, c: string)
    requires AllSpace(a) && AllSpace(c) && Trimmed(b)
    ensures Strip(a + b + c) == b
  {
    var s := a + b + c;
    if b == [] {
      assert s == a + c;
      LStripAllSpace(s);
    } else {
      assert s == a + (b + c);
      LStripFramed(a, b + c);
      RStripFramed(b, c);
    }
  }

  /** Text without surrounding whitespace is its own `strip()`. */
  lemma StripTrimmed(t: string)
    requires Trimmed(t)
    ensures Strip(t) == t
  {
    assert AllSpace("");
    StripFramed("", t, "");
    assert "" + t + "" == t;
  }

  lemma {:induction false} LStripAllSpace(s: string)
    requires AllSpace(s)
    ensures LStrip(s) == []
    decreases |s|
  {
    if s != [] {
      LStripAllSpace(s[1..]);
    }
  }

  lemma {:induction false} LStripFramed(a: string, t: string)
    requires AllSpace(a) && (t == [] || !IsSpace(t[0]))
    ensures LStrip(a + t) == t
    decreases |a|
  {
    if a != [] {
      assert (a + t)[1..] == a[1..] + t;
      LStripFramed(a[1..], t);
    } else {
      assert a + t == t;
    }
  }

  lemma {:induction false} RStripFramed(b: string, c: string)
    requires AllSpace(c) && (b == [] || !IsSpace(b[|b| - 1]))
    ensures RStrip(b + c) == b
    decreases |c|
  {
    if c != [] {
      assert (b + c)[..|b + c| - 1] == b + c[..|c| - 1];
      RStripFramed(b, c[..|c| - 1]);
    } else {
      assert b + c == b;
    }
  }

  /** Python's `s.rstrip(ch)` for one character. */
  function RStripChar(s: string, ch: char): (r: string)
    ensures |r| <= |s| && r == s[..|r|]
    ensures r == [] || r[|r| - 1] != ch
    ensures forall i :: |r| <= i < |s| ==> s[i] == ch
  {
    if |s| > 0 && s[|s| - 1] == ch then RStripChar(s[..|s| - 1], ch) else s
  }

  predicate StartsWith(s: string, p: string) {
    |p| <= |s| && s[..|p|] == p
  }

  predicate EndsWith(s: string, p: string) {
    |p| <= |s| && s[|s| - |p|..] == p
  }

  /** Python's `p in s` for a substring `p`. */
  predicate ContainsSub(s: string, p: string)
    decreases |s|
  {
    StartsWith(s, p) || (|s| > 0 && ContainsSub(s[1..], p))
  }

  /** The index of the first occurrence of `c` (Python's `s.index(c)`). */
  function FirstIndex(s: string, c: char): (i: nat)
    requires c in s
    ensures i < |s| && s[i] == c && c !in s[..i]
  {
    if s[0] == c then 0 else 1 + FirstIndex(s[1..], c)
  }

  function LowerChar(c: char): (r: char)
    ensures 'A' <= c <= 'Z' ==> 'a' <= r <= 'z'
    ensures !('A' <= c <= 'Z') ==> r == c
  {
    if 'A' <= c <= 'Z' then (c as int + 32) as char else c
  }

  function UpperChar(c: char): (r: char)
    ensures 'a' <= c <= 'z' ==> 'A' <= r <= 'Z'
    ensures !('a' <= c <= 'z') ==> r == c
  {
    if 'a' <= c <= 'z' then (c as int - 32) as char else c
  }

  /** Python's `s.lower()` (ASCII letters). */
  function Lower(s: string): (r: string)
    ensures |r| == |s| && forall i :: 0 <= i < |s| ==> r[i] == LowerChar(s[i])
  {
    seq(|s|, i requires 0 <= i < |s| => LowerChar(s[i]))
  }

  /** Python's `s.upper()` (ASCII letters). */
  function Upper(s: string): (r: string)
    ensures |r| == |s| && forall i :: 0 <= i < |s| ==> r[i] == UpperChar(s[i])
  {
    seq(|s|, i requires 0 <= i < |s| => UpperChar(s[i]))
  }

  predicate IsLetter(c: char) {
    ('a' <= c <= 'z') || ('A' <= c <= 'Z')
  }

  /** Python's `s.title()` (ASCII letters): a letter is upper-cased when it does not follow a letter, and lower-cased when it does. */
  function Title(s: string): (r: string)
    ensures |r| == |s|
    ensures forall i :: 0 <= i < |s| ==> r[i] == if i > 0 && IsLetter(s[i - 1]) then LowerChar(s[i]) else UpperChar(s[i])
  {
    seq(|s|, i requires 0 <= i < |s| => if i > 0 && IsLetter(s[i - 1]) then LowerChar(s[i]) else UpperChar(s[i]))
  }

  /** Python's `s.split(c)` for a one-character separator. */
  function Split(s: string, c: char): (parts: seq<string>)
    ensures |parts| >= 1
    ensures forall k :: 0 <= k < |parts| ==> c !in parts[k]
    decreases |s|
  {
    if c !in s then [s]
    else
      var i := FirstIndex(s, c);
      [s[..i]] + Split(s[i + 1..], c)
  }

  /** Python's `c.join(parts)` for a one-character separator. */
  function Join(parts: seq<string>, c: char): string
  {
    if |parts| == 0 then ""
    else if |parts| == 1 then parts[0]
    else parts[0] + [c] + Join(parts[1..], c)
  }

  /** Joining a part in front of at least one more part puts the separator between them. */
  lemma JoinCons(a: string, rest: seq<string>, c: char)
    requires |rest| >= 1
    ensures Join([a] + rest, c) == a + [c] + Join(rest, c)
  {
    assert ([a] + rest)[1..] == rest;
  }

  /** Splitting and re-joining gives the text back. */
  lemma {:induction false} JoinSplit(s: string, c: char)
    ensures Join(Split(s, c), c) == s
    decreases |s|
  {
    if c in s {
      var i := FirstIndex(s, c);
      var rest := Split(s[i + 1..], c);
      JoinSplit(s[i + 1..], c);
      JoinCons(s[..i], rest, c);
      assert s == s[..i] + [c] + s[i + 1..];
    }
  }

  /** Split counts its separators: one more part than occurrences of `c`. */
  lemma {:induction false} SplitCount(s: string, c: char)
    ensures |Split(s, c)| == multiset(s)[c] + 1
    decreases |s|
  {
    if c in s {
      var i := FirstIndex(s, c);
      SplitCount(s[i + 1..], c);
      assert s == s[..i] + [c] + s[i + 1..];
      assert multiset(s) == multiset(s[..i]) + multiset([c]) + multiset(s[i + 1..]);
      assert multiset(s[..i])[c] == 0;
    } else {
      assert multiset(s)[c] == 0;
    }
  }

  /** Python's `s.split(c, 1)`: the text before the first `c` and the text after it. */
  function SplitOnce(s: string, c: char): (r: (string, Option<string>))
    ensures c !in s ==> r == (s, None)
    ensures c in s ==> r.1.Some? && s == r.0 + [c] + r.1.value && c !in r.0
  {
    if c !in s then (s, None)
    else
      var i := FirstIndex(s, c);
      assert s == s[..i] + [c] + s[i + 1..];
      (s[..i], Some(s[i + 1..]))
  }

  /** A split at a first occurrence is the split `SplitOnce` makes. */
  lemma SplitOnceAt(s: string, c: char, a: string, b: string)
    requires s == a + [c] + b && c !in a
    ensures SplitOnce(s, c) == (a, Some(b))
  {
    assert s[|a|] == c;
    var r := SplitOnce(s, c);
    assert |r.0| == |a| by {
      assert forall i :: 0 <= i < |a| ==> s[i] == a[i];
      assert forall i :: 0 <= i < |r.0| ==> s[i] == r.0[i];
    }
    assert r.0 == s[..|a|] == a;
    assert r.1.value == s[|a| + 1..] == b;
  }

  /** Python's `s.replace(pat, rep)`: every non-overlapping occurrence, scanning left to right. */
  function Replace(s: string, pat: string, rep: string): string
    requires |pat| > 0
    decreases |s|
  {
    if |s| < |pat| then s
    else if s[..|pat|] == pat then rep + Replace(s[|pat|..], pat, rep)
    else [s[0]] + Replace(s[1..], pat, rep)
  }

  /** A text that does not contain the pattern is left unchanged. */
  lemma {:induction false} ReplaceAbsent(s: string, pat: string, rep: string)
    requires |pat| > 0 && !ContainsSub(s, pat)
    ensures Replace(s, pat, rep) == s
    decreases |s|
  {
    if |s| >= |pat| {
      ReplaceAbsent(s[1..], pat, rep);
    }
  }

  /** Replacing in a text that is exactly the pattern yields the replacement. */
  lemma ReplaceWhole(pat: string, rep: string)
    requires |pat| > 0
    ensures Replace(pat, pat, rep) == rep
  {
    assert pat[..|pat|] == pat;
    assert pat[|pat|..] == [];
  }

  /** Python's `c * n`. */
  function Repeat(c: char, n: nat): (r: string)
    ensures |r| == n && forall i :: 0 <= i < n ==> r[i] == c
  {
    seq(n, _ => c)
  }
}
