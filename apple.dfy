/**
 * The pure parts of the Apple Music provider in bot/providers/apple.py: turning the parsed
 * `/download` options into downloader flags, recognising and taking apart a link, and
 * naming what was downloaded.
 */
module Apple {
  import opened Wrappers
  import opened Strings
  import opened Decimal
  import opened Dynamic
  import opened Assoc

  // Options to downloader flags.

  /** `option_map`: the options the downloader understands, each with its flag. */
  const OptionMap: map<string, string> := map[
    "aac" := "--aac", "aac-type" := "--aac-type", "alac-max" := "--alac-max",
    "all-album" := "--all-album", "atmos" := "--atmos", "atmos-max" := "--atmos-max",
    "debug" := "--debug", "mv-audio-type" := "--mv-audio-type", "mv-max" := "--mv-max",
    "select" := "--select", "song" := "--song"]

  /** Every flag is its option's name after "--". */
  lemma OptionMapFlags()
    ensures forall k :: k in OptionMap ==> OptionMap[k] == "--" + k
  {
  }

  /** The flags one option contributes: none, the flag alone for `True`, else the flag and `str(value)`. */
  function Emit(option: (string, Value)): (r: seq<string>)
    ensures option.0 !in OptionMap ==> r == []
    ensures option.0 in OptionMap && option.1 == BoolV(true) ==> r == [OptionMap[option.0]]
    ensures option.0 in OptionMap && option.1 != BoolV(true) ==> r == [OptionMap[option.0], Str(option.1)]
  {
    if option.0 !in OptionMap then []
    else if option.1 == BoolV(true) then [OptionMap[option.0]]
    else [OptionMap[option.0], Str(option.1)]
  }

  /** The flags of a whole dict, option after option in dict order. */
  function Flags(d: Dict<string, Value>): seq<string> {
    if |d| == 0 then [] else Flags(d[..|d| - 1]) + Emit(d[|d| - 1])
  }

  /** How many flag tokens an option contributes. */
  function Width(option: (string, Value)): nat {
    if option.0 !in OptionMap then 0 else if option.1 == BoolV(true) then 1 else 2
  }

  function TotalWidth(d: Dict<string, Value>): nat {
    if |d| == 0 then 0 else TotalWidth(d[..|d| - 1]) + Width(d[|d| - 1])
  }

  /** `build_options`: empty for missing or empty options, else the flags in order. */
  method BuildOptions(options: Option<Dict<string, Value>>) returns (cmd: seq<string>)
    ensures options.None? ==> cmd == []
    ensures options.Some? ==> cmd == Flags(options.value)
  {
    if options.None? || |options.value| == 0 {
      return [];
    }
    var d := options.value;
    cmd := [];
    for i := 0 to |d|
      invariant cmd == Flags(d[..i])
    {
      var (key, value) := d[i];
      assert d[..i + 1][..i] == d[..i];
      if key in OptionMap {
        if value == BoolV(true) {
          cmd := cmd + [OptionMap[key]];
        } else {
          cmd := cmd + [OptionMap[key], Str(value)];
        }
      }
    }
    assert d[..|d|] == d;
  }

  /** The flags of two dicts one after the other are the flags of each, in that order. */
  lemma {:induction false} FlagsAppend(d1: Dict<string, Value>, d2: Dict<string, Value>)
    ensures Flags(d1 + d2) == Flags(d1) + Flags(d2)
    decreases |d2|
  {
    if |d2| > 0 {
      var d2' := d2[..|d2| - 1];
      assert (d1 + d2)[..|d1 + d2| - 1] == d1 + d2';
      FlagsAppend(d1, d2');
    } else {
      assert d1 + d2 == d1;
    }
  }

  /** The number of flag tokens is the sum of 1 per `True` option and 2 per other mapped option. */
  lemma {:induction false} FlagsLength(d: Dict<string, Value>)
    ensures |Flags(d)| == TotalWidth(d)
    decreases |d|
  {
    if |d| > 0 {
      FlagsLength(d[..|d| - 1]);
    }
  }

  /** Options the downloader does not know add nothing. */
  lemma {:induction false} UnmappedDropped(d: Dict<string, Value>)
    requires forall i :: 0 <= i < |d| ==> d[i].0 !in OptionMap
    ensures Flags(d) == []
    decreases |d|
  {
    if |d| > 0 {
      UnmappedDropped(d[..|d| - 1]);
    }
  }

  /** Every flag emitted is "--" + the name of a known option, or a value following one. */
  lemma {:induction false} FlagsAreKnown(d: Dict<string, Value>, k: nat)
    requires k < |Flags(d)| && StartsWith(Flags(d)[k], "--")
    ensures (exists i :: 0 <= i < |d| && d[i].0 in OptionMap && Flags(d)[k] == "--" + d[i].0) ||
            (exists i :: 0 <= i < |d| && d[i].0 in OptionMap && d[i].1 != BoolV(true) && Flags(d)[k] == Str(d[i].1))
    decreases |d|
  {
    var n := |d| - 1;
    OptionMapFlags();
    if k < |Flags(d[..n])| {
      FlagsAreKnown(d[..n], k);
      assert forall i :: 0 <= i < n ==> d[..n][i] == d[i];
    } else {
      assert Flags(d)[k] == Emit(d[n])[k - |Flags(d[..n])|];
    }
  }

  // Links.

  const AppleHost := "https://music.apple.com/"

  /** `.` in a regular expression: any character but a newline. */
  predicate NoNewline(s: string) {
    '\n' !in s
  }

  /** At `i`: "/" + kind + "/" followed by one more character that is not a newline. */
  predicate KindAt(url: string, i: nat, kind: string) {
    i + |kind| + 2 < |url| && url[i] == '/' && url[i + 1..i + 1 + |kind|] == kind &&
    url[i + 1 + |kind|] == '/' && url[i + |kind| + 2] != '\n'
  }

  /**
   * `validate_url`: `re.match` of `https://music\.apple\.com/.+/(album|song|playlist)/.+`,
   * anchored at the start only.
   */
  predicate ValidateUrl(url: string) {
    StartsWith(url, AppleHost) &&
    exists i :: |AppleHost| < i < |url| && NoNewline(url[|AppleHost|..i]) &&
      (KindAt(url, i, "album") || KindAt(url, i, "song") || KindAt(url, i, "playlist"))
  }

  /** A link to another host, or to the host by plain http, is rejected. */
  lemma ValidateNeedsHost(url: string)
    requires ValidateUrl(url)
    ensures url[..|AppleHost|] == AppleHost
    ensures exists i :: |AppleHost| < i < |url| && url[i] == '/'
  {
    var i :| |AppleHost| < i < |url| && NoNewline(url[|AppleHost|..i]) &&
      (KindAt(url, i, "album") || KindAt(url, i, "song") || KindAt(url, i, "playlist"));
  }

  /** A typical album link passes. */
  lemma ValidateAlbumLink()
    ensures ValidateUrl("https://music.apple.com/us/album/x")
  {
    var url := "https://music.apple.com/us/album/x";
    assert url[|AppleHost|..26] == "us";
    assert KindAt(url, 26, "album");
  }

  /** The kinds `extract_content_id` recognises, in the order of the alternation. */
  const Kinds: seq<string> := ["album", "song", "playlist", "artist"]

  /** The kind whose name followed by "/" starts `url` at `j`, if any. */
  function KindOf(url: string, j: nat): (r: Option<nat>)
    requires j <= |url|
    ensures r.Some? ==> r.value < |Kinds| && StartsWith(url[j..], Kinds[r.value] + "/")
    ensures r.None? ==> forall k :: 0 <= k < |Kinds| ==> !StartsWith(url[j..], Kinds[k] + "/")
  {
    if StartsWith(url[j..], Kinds[0] + "/") then Some(0)
    else if StartsWith(url[j..], Kinds[1] + "/") then Some(1)
    else if StartsWith(url[j..], Kinds[2] + "/") then Some(2)
    else if StartsWith(url[j..], Kinds[3] + "/") then Some(3)
    else None
  }

  /** The end of the run of non-"/" characters from `j`: `[^/]+` taken greedily. */
  function SegmentEnd(url: string, j: nat): (e: nat)
    requires j <= |url|
    ensures j <= e <= |url| && (e == |url| || url[e] == '/')
    ensures forall m :: j <= m < e ==> url[m] != '/'
    decreases |url| - j
  {
    if j == |url| || url[j] == '/' then j else SegmentEnd(url, j + 1)
  }

  /** The end of the run of digits from `j`: `\d+` taken greedily. */
  function DigitEnd(url: string, j: nat): (e: nat)
    requires j <= |url|
    ensures j <= e <= |url| && (e == |url| || !IsDigit(url[e]))
    ensures forall m :: j <= m < e ==> IsDigit(url[m])
    decreases |url| - j
  {
    if j == |url| || !IsDigit(url[j]) then j else DigitEnd(url, j + 1)
  }

  /**
   * The pattern `/(album|song|playlist|artist)/[^/]+/(\d+)` matches at `i` with the kind
   * `Kinds[k]`, the segment ending at `e` and the digits ending at `d`.
   */
  predicate MatchesAt(url: string, i: nat, k: nat, e: nat, d: nat) {
    k < |Kinds| && i < |url| && url[i] == '/' && StartsWith(url[i + 1..], Kinds[k] + "/") &&
    var s := i + |Kinds[k]| + 2;
    s < e && e + 1 < d <= |url| && url[e] == '/' && (forall m :: s <= m < e ==> url[m] != '/') &&
    (forall m :: e < m < d ==> IsDigit(url[m])) && (d == |url| || !IsDigit(url[d]))
  }

  /** The id captured by a match at `i`, if the pattern matches there. */
  function MatchAt(url: string, i: nat): (r: Option<string>)
    ensures r.Some? ==> exists k: nat, e: nat, d: nat :: MatchesAt(url, i, k, e, d) && r.value == url[e + 1..d]
  {
    if i < |url| && url[i] == '/' then
      match KindOf(url, i + 1)
      case None => None
      case Some(k) =>
        var s := i + |Kinds[k]| + 2;
        var e := SegmentEnd(url, s);
        if e == s || e == |url| then None
        else
          var d := DigitEnd(url, e + 1);
          if d == e + 1 then None
          else
            assert MatchesAt(url, i, k, e, d);
            Some(url[e + 1..d])
    else None
  }

  /** The two kinds that share a first letter differ in their second. */
  lemma KindsDistinct(url: string, j: nat, k: nat, k': nat)
    requires j <= |url| && k < |Kinds| && k' < |Kinds|
    requires StartsWith(url[j..], Kinds[k] + "/") && StartsWith(url[j..], Kinds[k'] + "/")
    ensures k == k'
  {
    var t := url[j..];
    assert t[0] == Kinds[k][0] == Kinds[k'][0];
    assert t[1] == Kinds[k][1] == Kinds[k'][1];
  }

  /** A match found at `i` is the one `MatchAt` reports: the captured id is determined. */
  lemma MatchAtComplete(url: string, i: nat, k: nat, e: nat, d: nat)
    requires MatchesAt(url, i, k, e, d)
    ensures MatchAt(url, i) == Some(url[e + 1..d])
  {
    var s := i + |Kinds[k]| + 2;
    assert i < |url| && url[i] == '/' && s < e && e + 1 < d <= |url|;
    var r := KindOf(url, i + 1);
    KindsDistinct(url, i + 1, r.value, k);
    SegmentEndAt(url, s, e);
    DigitEndAt(url, e + 1, d);
    MatchAtFound(url, i, k, e, d);
  }

  /** `MatchAt` once the kind and both scans are known. */
  lemma MatchAtFound(url: string, i: nat, k: nat, e: nat, d: nat)
    requires i < |url| && url[i] == '/' && KindOf(url, i + 1) == Some(k)
    requires i + |Kinds[k]| + 2 < e && e + 1 < d <= |url|
    requires SegmentEnd(url, i + |Kinds[k]| + 2) == e && DigitEnd(url, e + 1) == d
    ensures MatchAt(url, i) == Some(url[e + 1..d])
  {
  }

  /** The segment scan stops exactly at the first "/" from `j`. */
  lemma {:induction false} SegmentEndAt(url: string, j: nat, e: nat)
    requires j <= e < |url| && url[e] == '/'
    requires forall m :: j <= m < e ==> url[m] != '/'
    ensures SegmentEnd(url, j) == e
    decreases e - j
  {
    if j < e {
      SegmentEndAt(url, j + 1, e);
    }
  }

  /** The digit scan stops exactly at the first non-digit from `j`, or at the end. */
  lemma {:induction false} DigitEndAt(url: string, j: nat, d: nat)
    requires j <= d <= |url| && (d == |url| || !IsDigit(url[d]))
    requires forall m :: j <= m < d ==> IsDigit(url[m])
    ensures DigitEnd(url, j) == d
    decreases d - j
  {
    if j < d {
      DigitEndAt(url, j + 1, d);
    }
  }

  /** `re.search` from `i`: the match starting leftmost, if any. */
  function SearchFrom(url: string, i: nat): (r: Option<string>)
    decreases |url| - i
  {
    if i >= |url| then None
    else if MatchAt(url, i).Some? then MatchAt(url, i)
    else SearchFrom(url, i + 1)
  }

  /** `extract_content_id`: the digits of the leftmost match, or "unknown". */
  function ExtractContentId(url: string): string {
    match SearchFrom(url, 0)
    case Some(id) => id
    case None => "unknown"
  }

  /** The search finds the match at the leftmost position where the pattern matches. */
  lemma {:induction false} SearchFinds(url: string, i: nat, j: nat)
    requires i <= j < |url| && MatchAt(url, j).Some?
    requires forall m :: i <= m < j ==> MatchAt(url, m).None?
    ensures SearchFrom(url, i) == MatchAt(url, j)
    decreases j - i
  {
    if i < j {
      SearchFinds(url, i + 1, j);
    }
  }

  /** The search finds nothing when the pattern matches nowhere from `i` on. */
  lemma {:induction false} SearchMisses(url: string, i: nat)
    requires forall m :: i <= m < |url| ==> MatchAt(url, m).None?
    ensures SearchFrom(url, i) == None
    decreases |url| - i
  {
    if i < |url| {
      SearchMisses(url, i + 1);
    }
  }

  /** The search finds something when the pattern matches somewhere from `i` on. */
  lemma {:induction false} SearchHits(url: string, i: nat, j: nat)
    requires i <= j < |url| && MatchAt(url, j).Some?
    ensures SearchFrom(url, i).Some?
    decreases j - i
  {
    if i < j && MatchAt(url, i).None? {
      SearchHits(url, i + 1, j);
    }
  }

  /** Whatever the search finds is a match at some position at or after `i`. */
  lemma {:induction false} SearchSound(url: string, i: nat)
    ensures SearchFrom(url, i).Some? ==> exists j :: i <= j < |url| && MatchAt(url, j) == SearchFrom(url, i)
    decreases |url| - i
  {
    if i < |url| && MatchAt(url, i).None? {
      SearchSound(url, i + 1);
    }
  }

  /** A match's id is a non-empty run of digits. */
  lemma MatchDigits(url: string, j: nat)
    requires MatchAt(url, j).Some?
    ensures |MatchAt(url, j).value| > 0 && AllDigits(MatchAt(url, j).value)
  {
    var id := MatchAt(url, j).value;
    var k: nat, e: nat, d: nat :| MatchesAt(url, j, k, e, d) && id == url[e + 1..d];
    assert forall m :: 0 <= m < |id| ==> id[m] == url[e + 1 + m];
  }

  /** Whatever the search finds is a non-empty run of digits. */
  lemma SearchDigits(url: string)
    requires SearchFrom(url, 0).Some?
    ensures |SearchFrom(url, 0).value| > 0 && AllDigits(SearchFrom(url, 0).value)
  {
    SearchSound(url, 0);
    var j :| 0 <= j < |url| && MatchAt(url, j) == SearchFrom(url, 0);
    MatchDigits(url, j);
  }

  /**
   * The id is "unknown" exactly when the pattern matches nowhere; otherwise it is the
   * non-empty digit run of the leftmost match.
   */
  lemma ContentIdSpec(url: string)
    ensures ExtractContentId(url) == "unknown" <==> forall m :: 0 <= m < |url| ==> MatchAt(url, m).None?
    ensures ExtractContentId(url) != "unknown" ==>
      |ExtractContentId(url)| > 0 && AllDigits(ExtractContentId(url))
  {
    if exists m :: 0 <= m < |url| && MatchAt(url, m).Some? {
      var j0 :| 0 <= j0 < |url| && MatchAt(url, j0).Some?;
      SearchHits(url, 0, j0);
      SearchDigits(url);
      assert !IsDigit("unknown"[0]);
    } else {
      SearchMisses(url, 0);
    }
  }

  /** A link whose leftmost match is at `j` yields that match's digits. */
  lemma ContentIdOfFirstMatch(url: string, j: nat, k: nat, e: nat, d: nat)
    requires MatchesAt(url, j, k, e, d)
    requires forall m :: 0 <= m < j ==> MatchAt(url, m).None?
    ensures ExtractContentId(url) == url[e + 1..d]
  {
    MatchAtComplete(url, j, k, e, d);
    SearchFinds(url, 0, j);
  }

  /** The content type recorded for a download: a track iff exactly one file came back. */
  function ContentType(files: nat): (r: string)
    ensures r == "track" <==> files == 1
    ensures r == "album" <==> files != 1
  {
    if files == 1 then "track" else "album"
  }
}
