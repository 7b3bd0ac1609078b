/**
 * The line-based editing of the downloader's YAML configuration in bot/modules/config_yaml.py:
 * reading one key, rewriting one key in place, masking secrets for display and quoting
 * secrets on `/config_set`. Lines keep their trailing newline, as `readlines()` gives them.
 * Key comparison uses `lower()`, modelled on ASCII letters.
 */
module ConfigYaml {
  import opened Wrappers
  import opened Strings

  /** `SENSITIVE_KEYS`. */
  predicate Sensitive(key: string) {
    key == "media-user-token" || key == "authorization-token"
  }

  /** `_mask_value`: secrets keep their first and last four characters at most; every other character becomes '*'. */
  function MaskValue(key: string, value: string): (r: string)
    ensures |r| == |value|
    ensures !Sensitive(key) || value == "" ==> r == value
    ensures Sensitive(key) && |value| <= 8 ==> forall i :: 0 <= i < |r| ==> r[i] == '*'
    ensures Sensitive(key) && |value| > 8 ==>
      && r[..4] == value[..4] && r[|r| - 4..] == value[|value| - 4..]
      && forall i :: 4 <= i < |r| - 4 ==> r[i] == '*'
  {
    if Sensitive(key) && value != "" then
      if |value| <= 8 then Repeat('*', |value|)
      else
        var r := value[..4] + Repeat('*', |value| - 8) + value[|value| - 4..];
        assert r[..4] == value[..4];
        assert r[|r| - 4..] == value[|value| - 4..];
        r
    else value
  }

  /** Masking an already masked value changes nothing. */
  lemma MaskIdempotent(key: string, value: string)
    ensures MaskValue(key, MaskValue(key, value)) == MaskValue(key, value)
  {
    var m := MaskValue(key, value);
    if Sensitive(key) && |value| > 8 {
      var mm := MaskValue(key, m);
      assert forall i :: 0 <= i < |m| ==> mm[i] == m[i] by {
        forall i | 0 <= i < |m|
          ensures mm[i] == m[i]
        {
          if i < 4 {
            assert mm[i] == mm[..4][i] && m[i] == m[..4][i];
          } else if i >= |m| - 4 {
            assert mm[i] == mm[|mm| - 4..][i - (|m| - 4)] && m[i] == m[|m| - 4..][i - (|m| - 4)];
          }
        }
      }
    }
  }

  /** `s` is `k`, the first ':' and `v`. */
  predicate SplitsAt(s: string, k: string, v: string) {
    s == k + ":" + v && ':' !in k
  }

  /** `_parse_kv`: (None, None) is None here. */
  function ParseKv(line: string): (r: Option<(string, string)>)
    ensures r.None? <==> var s := Strip(line); s == "" || s[0] == '#' || ':' !in s
    ensures r.Some? ==> ':' !in r.value.0 && Trimmed(r.value.0) && Trimmed(r.value.1)
    ensures r.Some? ==> exists k, v :: SplitsAt(Strip(line), k, v) && r.value == (Strip(k), Strip(v))
  {
    var s := Strip(line);
    if s == "" || StartsWith(s, "#") || ':' !in s then
      assert StartsWith(s, "#") <==> s != "" && s[0] == '#';
      None
    else
      var (k, rest) := SplitOnce(s, ':');
      assert ':' !in Strip(k) by {
        if ':' in Strip(k) {
          StripChars(k, ':');
        }
      }
      assert SplitsAt(s, k, rest.value);
      Some((Strip(k), Strip(rest.value)))
  }

  /** Whether `line` holds `key`: a non-empty parsed key equal to it ignoring case. */
  predicate Matches(line: string, key: string) {
    var kv := ParseKv(line);
    kv.Some? && kv.value.0 != "" && Lower(kv.value.0) == Lower(key)
  }

  /** `Matches` as a test on lines, for the scans below. */
  function IsKey(key: string): string -> bool {
    line => Matches(line, key)
  }

  predicate NeedsQuotes(value: string) {
    value != "" && value[0] != '"' && value[0] != '\'' && (':' in value || '#' in value || ' ' in value)
  }

  /** The quoting rule of `_set_key`: a bare value holding ':', '#' or a space is double-quoted. */
  function Fmt(value: string): (r: string)
    ensures NeedsQuotes(value) ==> r == "\"" + value + "\""
    ensures !NeedsQuotes(value) ==> r == value
  {
    if NeedsQuotes(value) then "\"" + value + "\"" else value
  }

  /** The comment `_set_key` carries over: a space and the text after the first '#', without its '#'. */
  function Comment(line: string): string {
    if '#' in line then " " + RStripChar(SplitOnce(line, '#').1.value, '\n') else ""
  }

  /** What `_set_key` makes of one input line. */
  function SetLine(line: string, key: string, value: string): string {
    if Matches(line, key) then key + ": " + Fmt(value) + Comment(line) + "\n" else line
  }

  /** `SetLine` as a map on lines. */
  function Rewrite(key: string, value: string): string -> string {
    line => SetLine(line, key, value)
  }

  /** The line `_set_key` appends when no line holds the key. */
  function NewLine(key: string, value: string): string {
    key + ": " + Fmt(value) + "\n"
  }

  /** The value `_get_key` reads from a line: the parsed value up to its first '#', stripped. */
  function LineValue(line: string): (r: string)
    ensures '#' !in r && Trimmed(r)
  {
    match ParseKv(line)
    case None => ""
    case Some(kv) =>
      var v := SplitOnce(kv.1, '#').0;
      assert '#' !in Strip(v) by {
        if '#' in Strip(v) {
          StripChars(v, '#');
        }
      }
      Strip(v)
  }

  // Scans over lines, stated for any line test so that their proofs never open `_parse_kv`.

  /** Whether some line passes `p`. */
  predicate Any(lines: seq<string>, p: string -> bool) {
    exists i :: 0 <= i < |lines| && p(lines[i])
  }

  /** The `found` flag of a loop that has walked `lines`. */
  predicate Found(lines: seq<string>, p: string -> bool) {
    lines != [] && (Found(lines[..|lines| - 1], p) || p(lines[|lines| - 1]))
  }

  lemma {:induction false} FoundIsAny(lines: seq<string>, p: string -> bool)
    ensures Found(lines, p) <==> Any(lines, p)
  {
    if lines != [] {
      var front := lines[..|lines| - 1];
      FoundIsAny(front, p);
      assert forall i :: 0 <= i < |front| ==> front[i] == lines[i];
      if Any(lines, p) && !p(lines[|lines| - 1]) {
        var i :| 0 <= i < |lines| && p(lines[i]);
        assert front[i] == lines[i];
      }
    }
  }

  /** The lines a loop emits, one for each line walked. */
  function MapLines(lines: seq<string>, f: string -> string): (r: seq<string>)
    ensures |r| == |lines|
  {
    if lines == [] then [] else MapLines(lines[..|lines| - 1], f) + [f(lines[|lines| - 1])]
  }

  lemma {:induction false} MapLinesAt(lines: seq<string>, f: string -> string, i: nat)
    requires i < |lines|
    ensures MapLines(lines, f)[i] == f(lines[i])
  {
    if i < |lines| - 1 {
      MapLinesAt(lines[..|lines| - 1], f, i);
    }
  }

  /** The value `v` gives to the first line that passes `p`, or None. */
  function First(lines: seq<string>, p: string -> bool, v: string -> string): Option<string> {
    if lines == [] then None
    else if p(lines[0]) then Some(v(lines[0]))
    else First(lines[1..], p, v)
  }

  /** The first line that passes `p`, when there is one. */
  lemma FirstPassing(lines: seq<string>, p: string -> bool) returns (i: nat)
    requires Any(lines, p)
    ensures i < |lines| && p(lines[i])
    ensures forall j :: 0 <= j < i ==> !p(lines[j])
  {
    var k :| 0 <= k < |lines| && p(lines[k]);
    i := 0;
    while !p(lines[i])
      invariant i <= k
      invariant forall j :: 0 <= j < i ==> !p(lines[j])
      decreases k - i
    {
      i := i + 1;
    }
  }

  lemma {:induction false} FirstNone(lines: seq<string>, p: string -> bool, v: string -> string)
    ensures First(lines, p, v).None? <==> !Any(lines, p)
  {
    if lines != [] && !p(lines[0]) {
      FirstNone(lines[1..], p, v);
      assert forall i :: 1 <= i < |lines| ==> lines[i] == lines[1..][i - 1];
      if Any(lines[1..], p) {
        var i :| 0 <= i < |lines[1..]| && p(lines[1..][i]);
        assert lines[i + 1] == lines[1..][i];
      }
    }
  }

  lemma {:induction false} FirstAt(lines: seq<string>, p: string -> bool, v: string -> string, i: nat)
    requires i < |lines| && p(lines[i])
    requires forall j :: 0 <= j < i ==> !p(lines[j])
    ensures First(lines, p, v) == Some(v(lines[i]))
  {
    if i > 0 {
      assert !p(lines[0]);
      forall j | 0 <= j < i - 1
        ensures !p(lines[1..][j])
      {
        assert lines[1..][j] == lines[j + 1];
      }
      FirstAt(lines[1..], p, v, i - 1);
    }
  }

  // `_set_key` and `_get_key`.

  /** Whether some line holds `key`. */
  predicate AnyMatch(lines: seq<string>, key: string) {
    Any(lines, IsKey(key))
  }

  /** `_set_key`. */
  function SetKeyLines(lines: seq<string>, key: string, value: string): seq<string> {
    var mapped := MapLines(lines, Rewrite(key, value));
    if Found(lines, IsKey(key)) then mapped else mapped + [NewLine(key, value)]
  }

  /**
   * What `_set_key` returns: when some line holds the key, as many lines as before with every
   * matching line rewritten; otherwise the input and one new `key: value` line. Other lines
   * are kept, in their order.
   */
  lemma SetKeyShape(lines: seq<string>, key: string, value: string)
    ensures var r := SetKeyLines(lines, key, value);
      && (AnyMatch(lines, key) ==> |r| == |lines|)
      && (!AnyMatch(lines, key) ==> |r| == |lines| + 1 && r[|lines|] == key + ": " + Fmt(value) + "\n")
      && (forall i :: 0 <= i < |lines| && !Matches(lines[i], key) ==> r[i] == lines[i])
      && (forall i :: 0 <= i < |lines| && Matches(lines[i], key) ==> r[i] == key + ": " + Fmt(value) + Comment(lines[i]) + "\n")
  {
    FoundIsAny(lines, IsKey(key));
    var r := SetKeyLines(lines, key, value);
    forall i | 0 <= i < |lines|
      ensures r[i] == SetLine(lines[i], key, value)
    {
      MapLinesAt(lines, Rewrite(key, value), i);
    }
  }

  /** One more line walked: its rewrite is emitted and the flag notes whether it holds the key. */
  lemma SetKeyStep(lines: seq<string>, key: string, value: string, i: nat)
    requires i < |lines|
    ensures MapLines(lines[..i + 1], Rewrite(key, value)) == MapLines(lines[..i], Rewrite(key, value)) + [SetLine(lines[i], key, value)]
    ensures Found(lines[..i + 1], IsKey(key)) == (Found(lines[..i], IsKey(key)) || Matches(lines[i], key))
  {
    assert lines[..i + 1][..i] == lines[..i];
  }

  /** `_set_key`, as the loop the source runs, with its `found` flag. */
  method SetKey(lines: seq<string>, key: string, value: string) returns (r: seq<string>)
    ensures r == SetKeyLines(lines, key, value)
  {
    var found := false;
    r := [];
    var i := 0;
    while i < |lines|
      invariant 0 <= i <= |lines|
      invariant r == MapLines(lines[..i], Rewrite(key, value))
      invariant found == Found(lines[..i], IsKey(key))
    {
      var ln := lines[i];
      SetKeyStep(lines, key, value, i);
      var kv := ParseKv(ln);
      if kv.Some? && kv.value.0 != "" && Lower(kv.value.0) == Lower(key) {
        found := true;
        var comment := "";
        if '#' in ln {
          comment := " " + RStripChar(SplitOnce(ln, '#').1.value, '\n');
        }
        assert comment == Comment(ln);
        r := r + [key + ": " + Fmt(value) + comment + "\n"];
      } else {
        r := r + [ln];
      }
      i := i + 1;
    }
    assert lines[..i] == lines;
    if !found {
      r := r + [key + ": " + Fmt(value) + "\n"];
    }
  }

  /** `_get_key`: the value of the first matching line, or None. */
  function GetKeyOf(lines: seq<string>, key: string): Option<string> {
    First(lines, IsKey(key), LineValue)
  }

  /** `_get_key` finds nothing exactly when no line holds the key. */
  lemma GetKeyNone(lines: seq<string>, key: string)
    ensures GetKeyOf(lines, key).None? <==> !exists i :: 0 <= i < |lines| && Matches(lines[i], key)
  {
    FirstNone(lines, IsKey(key), LineValue);
  }

  /** `_get_key` returns the value of the first line that holds the key. */
  lemma GetKeyFirst(lines: seq<string>, key: string, i: nat)
    requires i < |lines| && Matches(lines[i], key)
    requires forall j :: 0 <= j < i ==> !Matches(lines[j], key)
    ensures GetKeyOf(lines, key) == Some(LineValue(lines[i]))
  {
    FirstAt(lines, IsKey(key), LineValue, i);
  }

  /** `_get_key`, as the loop the source runs, returning at the first match. */
  method GetKey(lines: seq<string>, key: string) returns (r: Option<string>)
    ensures r == GetKeyOf(lines, key)
  {
    var i := 0;
    while i < |lines|
      invariant 0 <= i <= |lines|
      invariant GetKeyOf(lines, key) == GetKeyOf(lines[i..], key)
    {
      var kv := ParseKv(lines[i]);
      if kv.Some? && kv.value.0 != "" && Lower(kv.value.0) == Lower(key) {
        return Some(Strip(SplitOnce(kv.value.1, '#').0));
      }
      assert lines[i..][1..] == lines[i + 1..];
      i := i + 1;
    }
    return None;
  }

  /** The quoting of `config_set`: a sensitive value not already quoted is wrapped in double quotes. */
  function CommandValue(key: string, value: string): (r: string)
    ensures Sensitive(key) ==> r != "" && (r[0] == '"' || r[0] == '\'')
    ensures Sensitive(key) && !(StartsWith(value, "\"") || StartsWith(value, "'")) ==> r == "\"" + value + "\""
    ensures StartsWith(value, "\"") || StartsWith(value, "'") ==> r == value
    ensures !Sensitive(key) ==> r == value
  {
    if Sensitive(key) && !(StartsWith(value, "\"") || StartsWith(value, "'")) then "\"" + value + "\"" else value
  }

  /** Stripping a written line drops its newline and, for an empty value, the space after the colon. */
  lemma StripWritten(key: string, fmt: string)
    requires key != "" && Trimmed(key) && Trimmed(fmt)
    ensures Strip(key + ": " + fmt + "\n") == key + ":" + (if fmt == "" then "" else " " + fmt)
  {
    var line := key + ": " + fmt + "\n";
    assert AllSpace("") && AllSpace("\n") && AllSpace(" \n");
    if fmt == "" {
      var b := key + ":";
      assert b[0] == key[0] && b[|b| - 1] == ':';
      assert line == "" + b + " \n";
      StripFramed("", b, " \n");
    } else {
      var b := key + ": " + fmt;
      assert b[0] == key[0] && b[|b| - 1] == fmt[|fmt| - 1];
      assert line == "" + b + "\n";
      StripFramed("", b, "\n");
    }
  }

  /** A line `key: value` written by `_set_key` parses back to the key and the value. */
  lemma ParseWritten(key: string, fmt: string)
    requires key != "" && Trimmed(key) && ':' !in key && key[0] != '#' && Trimmed(fmt)
    ensures ParseKv(key + ": " + fmt + "\n") == Some((key, fmt))
  {
    var rest := if fmt == "" then "" else " " + fmt;
    var s := key + ":" + rest;
    StripWritten(key, fmt);
    assert s == key + [':'] + rest;
    SplitOnceAt(s, ':', key, rest);
    StripTrimmed(key);
    if fmt == "" {
      LStripAllSpace(rest);
    } else {
      StripFramed(" ", fmt, "");
      assert " " + fmt + "" == rest;
    }
  }

  /** A written line holds its key and reads back as the formatted value, provided no '#' is involved. */
  lemma ReadWritten(key: string, value: string)
    requires key != "" && Trimmed(key) && ':' !in key && '#' !in key
    requires Trimmed(value) && '#' !in value
    ensures Matches(key + ": " + Fmt(value) + "\n", key)
    ensures LineValue(key + ": " + Fmt(value) + "\n") == Fmt(value)
  {
    var fmt := Fmt(value);
    assert Trimmed(fmt) && '#' !in fmt by {
      if NeedsQuotes(value) {
        assert fmt == ['"'] + value + ['"'];
      }
    }
    assert key[0] != '#' by {
      assert key[0] in key;
    }
    ParseWritten(key, fmt);
    assert SplitOnce(fmt, '#') == (fmt, None);
    StripTrimmed(fmt);
  }

  /** A line holding the key and no comment becomes the bare written line. */
  lemma SetLineBare(line: string, key: string, value: string)
    requires Matches(line, key) && '#' !in line
    ensures Rewrite(key, value)(line) == key + ": " + Fmt(value) + "\n"
  {
    assert Comment(line) == "";
  }

  /** With a line holding the key, nothing is appended. */
  lemma SetKeyMapped(lines: seq<string>, key: string, value: string, i: nat)
    requires i < |lines| && Matches(lines[i], key)
    ensures SetKeyLines(lines, key, value) == MapLines(lines, Rewrite(key, value))
  {
    assert IsKey(key)(lines[i]);
    FoundIsAny(lines, IsKey(key));
  }

  /** A line holding the key and no comment is rewritten to the bare written line. */
  lemma SetKeyAt(lines: seq<string>, key: string, value: string, i: nat)
    requires i < |lines| && Matches(lines[i], key) && '#' !in lines[i]
    ensures var r := SetKeyLines(lines, key, value);
      i < |r| && r[i] == key + ": " + Fmt(value) + "\n"
  {
    SetKeyMapped(lines, key, value, i);
    MapLinesAt(lines, Rewrite(key, value), i);
    SetLineBare(lines[i], key, value);
  }

  /** Lines that do not hold the key are kept as they are. */
  lemma SetKeyKeeps(lines: seq<string>, key: string, value: string, j: nat)
    requires j < |lines| && !Matches(lines[j], key)
    ensures var r := SetKeyLines(lines, key, value);
      j < |r| && r[j] == lines[j]
  {
    FoundIsAny(lines, IsKey(key));
    MapLinesAt(lines, Rewrite(key, value), j);
  }

  /** The written line replaces the first line holding the key, and reads back first. */
  lemma SetThenGetFound(lines: seq<string>, key: string, value: string, i: nat)
    requires key != "" && Trimmed(key) && ':' !in key && '#' !in key
    requires Trimmed(value) && '#' !in value
    requires i < |lines| && Matches(lines[i], key) && '#' !in lines[i]
    requires forall j :: 0 <= j < i ==> !Matches(lines[j], key)
    ensures GetKeyOf(SetKeyLines(lines, key, value), key) == Some(Fmt(value))
  {
    var r := SetKeyLines(lines, key, value);
    SetKeyAt(lines, key, value, i);
    forall j | 0 <= j < i
      ensures !Matches(r[j], key)
    {
      SetKeyKeeps(lines, key, value, j);
    }
    ReadWritten(key, value);
    GetKeyFirst(r, key, i);
  }

  /** With no line holding the key, the appended line is the only one that does. */
  lemma SetThenGetNew(lines: seq<string>, key: string, value: string)
    requires key != "" && Trimmed(key) && ':' !in key && '#' !in key
    requires Trimmed(value) && '#' !in value
    requires !AnyMatch(lines, key)
    ensures GetKeyOf(SetKeyLines(lines, key, value), key) == Some(Fmt(value))
  {
    var r := SetKeyLines(lines, key, value);
    SetKeyShape(lines, key, value);
    ReadWritten(key, value);
    forall j | 0 <= j < |lines|
      ensures !Matches(r[j], key)
    {
      assert !IsKey(key)(lines[j]);
    }
    GetKeyFirst(r, key, |lines|);
  }

  /**
   * Reading back a key just set gives the value as `_set_key` formats it, when the key is a
   * plain word and neither the value nor any line holding the key carries a '#'.
   */
  lemma SetThenGet(lines: seq<string>, key: string, value: string)
    requires key != "" && Trimmed(key) && ':' !in key && '#' !in key
    requires Trimmed(value) && '#' !in value
    requires forall i :: 0 <= i < |lines| && Matches(lines[i], key) ==> '#' !in lines[i]
    ensures GetKeyOf(SetKeyLines(lines, key, value), key) == Some(Fmt(value))
  {
    if AnyMatch(lines, key) {
      var i := FirstPassing(lines, IsKey(key));
      SetThenGetFound(lines, key, value, i);
    } else {
      SetThenGetNew(lines, key, value);
    }
  }

  /** Both secret keys are plain words: no surrounding space, no ':' and no '#'. */
  lemma SensitivePlain(key: string)
    requires Sensitive(key)
    ensures key != "" && Trimmed(key) && ':' !in key && '#' !in key
  {
    if key == "media-user-token" {
      assert forall i :: 0 <= i < |key| ==> key[i] != ':' && key[i] != '#';
    } else {
      assert forall i :: 0 <= i < |key| ==> key[i] != ':' && key[i] != '#';
    }
  }

  /** Setting a secret through `/config_set` stores it quoted, and it reads back quoted. */
  lemma SetSecretThenGet(lines: seq<string>, key: string, value: string)
    requires Sensitive(key) && Trimmed(value) && '#' !in value && !StartsWith(value, "\"") && !StartsWith(value, "'")
    requires forall i :: 0 <= i < |lines| && Matches(lines[i], key) ==> '#' !in lines[i]
    ensures GetKeyOf(SetKeyLines(lines, key, CommandValue(key, value)), key) == Some("\"" + value + "\"")
  {
    var quoted := "\"" + value + "\"";
    assert quoted == ['"'] + value + ['"'];
    assert CommandValue(key, value) == quoted;
    assert Trimmed(quoted) && '#' !in quoted;
    assert Fmt(quoted) == quoted;
    SensitivePlain(key);
    SetThenGet(lines, key, quoted);
  }
}
