/**
 * The computational helpers of bot/helpers/utils.py: placeholder substitution in captions,
 * the grouping of a folder's files into size-bounded zip parts, the name of a descriptive
 * zip and the search for a free file name, and the bar of a progress message.
 */
module Utils {
  import opened Wrappers
  import opened Strings
  import opened Decimal
  import opened Dynamic

  // format_string

  /** The metadata fields with a `{name}` placeholder, in the order of the replacements dict. */
  const DataFields: seq<string> := ["title", "album", "artist", "albumartist", "tracknumber", "date",
    "upc", "isrc", "totaltracks", "volume", "totalvolume", "extension", "duration", "copyright",
    "genre", "provider", "quality", "explicit"]

  function Placeholder(field: string): (r: string)
    ensures |r| > 0 && r[0] == '{'
  {
    "{" + field + "}"
  }

  /** `data.get(field, '')` as text; the provider is title-cased. */
  function FieldValue(data: map<string, Value>, field: string): (r: string)
    ensures field !in data ==> r == ""
  {
    var v := if field in data then Str(data[field]) else "";
    if field == "provider" then Title(v) else v
  }

  /** The replacements dict: one pair per metadata field, then `{user}` and `{username}` for a user. */
  function Replacements(data: map<string, Value>, user: map<string, Value>): (r: seq<(string, string)>)
    ensures forall i :: 0 <= i < |r| ==> |r[i].0| > 0
  {
    var fields := seq(|DataFields|, i requires 0 <= i < |DataFields| => (Placeholder(DataFields[i]), FieldValue(data, DataFields[i])));
    if |user| > 0 then fields + [(Placeholder("user"), FieldValue(user, "name")), (Placeholder("username"), FieldValue(user, "user_name"))]
    else fields
  }

  predicate KeysNonEmpty(reps: seq<(string, string)>) {
    forall i :: 0 <= i < |reps| ==> |reps[i].0| > 0
  }

  /** `text.replace(key, value)` for every pair, in order. */
  function ApplyAll(text: string, reps: seq<(string, string)>): string
    requires KeysNonEmpty(reps)
  {
    if |reps| == 0 then text
    else
      var last := reps[|reps| - 1];
      Replace(ApplyAll(text, reps[..|reps| - 1]), last.0, last.1)
  }

  /** `format_string`: the loop that reassigns `text` once per replacement. */
  method FormatString(text: string, data: map<string, Value>, user: map<string, Value>) returns (r: string)
    ensures r == ApplyAll(text, Replacements(data, user))
  {
    var reps := Replacements(data, user);
    r := text;
    for i := 0 to |reps|
      invariant r == ApplyAll(text, reps[..i])
    {
      assert reps[..i + 1][..i] == reps[..i];
      r := Replace(r, reps[i].0, reps[i].1);
    }
    assert reps[..|reps|] == reps;
  }

  /** Replacing in two runs is replacing with the pairs of both runs in order. */
  lemma {:induction false} ApplyAllAppend(text: string, a: seq<(string, string)>, b: seq<(string, string)>)
    requires KeysNonEmpty(a) && KeysNonEmpty(b)
    ensures KeysNonEmpty(a + b)
    ensures ApplyAll(text, a + b) == ApplyAll(ApplyAll(text, a), b)
    decreases |b|
  {
    if |b| > 0 {
      var b' := b[..|b| - 1];
      assert (a + b)[..|a + b| - 1] == a + b';
      ApplyAllAppend(text, a, b');
    } else {
      assert a + b == a;
    }
  }

  /** A text with none of the placeholders in it comes back unchanged. */
  lemma {:induction false} ApplyAllAbsent(text: string, reps: seq<(string, string)>)
    requires KeysNonEmpty(reps)
    requires forall i :: 0 <= i < |reps| ==> !ContainsSub(text, reps[i].0)
    ensures ApplyAll(text, reps) == text
    decreases |reps|
  {
    if |reps| > 0 {
      ApplyAllAbsent(text, reps[..|reps| - 1]);
      ReplaceAbsent(text, reps[|reps| - 1].0, reps[|reps| - 1].1);
    }
  }

  /** A caption without placeholders is left as it is. */
  lemma FormatWithoutPlaceholders(text: string, data: map<string, Value>, user: map<string, Value>)
    requires forall i :: 0 <= i < |Replacements(data, user)| ==> !ContainsSub(text, Replacements(data, user)[i].0)
    ensures ApplyAll(text, Replacements(data, user)) == text
  {
    ApplyAllAbsent(text, Replacements(data, user));
  }

  /** Different fields have different placeholders. */
  lemma PlaceholderInjective(f: string, g: string)
    ensures Placeholder(f) == Placeholder(g) ==> f == g
  {
    if Placeholder(f) == Placeholder(g) {
      assert f == Placeholder(f)[1..|f| + 1];
      assert g == Placeholder(g)[1..|g| + 1];
    }
  }

  /** The user's fields are not metadata fields. */
  lemma UserNotField()
    ensures "user" !in DataFields && "username" !in DataFields
  {
    forall i | 0 <= i < |DataFields|
      ensures DataFields[i] != "user" && DataFields[i] != "username"
    {
      assert |DataFields[i]| != 4 || DataFields[i][0] != 'u';
    }
  }

  /** `{user}` and `{username}` are among the placeholders exactly when a user is given. */
  lemma UserPlaceholders(data: map<string, Value>, user: map<string, Value>)
    ensures (exists i :: 0 <= i < |Replacements(data, user)| && Replacements(data, user)[i].0 == "{user}") <==> |user| > 0
    ensures (exists i :: 0 <= i < |Replacements(data, user)| && Replacements(data, user)[i].0 == "{username}") <==> |user| > 0
  {
    var reps := Replacements(data, user);
    assert Placeholder("user") == "{user}" && Placeholder("username") == "{username}";
    UserNotField();
    forall i | 0 <= i < |DataFields|
      ensures reps[i].0 != "{user}" && reps[i].0 != "{username}"
    {
      assert reps[i].0 == Placeholder(DataFields[i]);
      PlaceholderInjective(DataFields[i], "user");
      PlaceholderInjective(DataFields[i], "username");
    }
    if |user| > 0 {
      assert reps[|DataFields|].0 == "{user}";
      assert reps[|DataFields| + 1].0 == "{username}";
    }
  }

  /** A metadata field that is missing is replaced by the empty text. */
  lemma MissingFieldIsEmpty(data: map<string, Value>, user: map<string, Value>, i: nat)
    requires i < |DataFields| && DataFields[i] !in data
    ensures Replacements(data, user)[i] == (Placeholder(DataFields[i]), "")
  {
  }

  /**
   * A caption that is just the first placeholder becomes the title, as long as the title
   * itself holds no placeholder that a later replacement would rewrite.
   */
  lemma FormatTitleAlone(data: map<string, Value>, user: map<string, Value>)
    requires var reps := Replacements(data, user);
      forall i :: 1 <= i < |reps| ==> !ContainsSub(FieldValue(data, "title"), reps[i].0)
    ensures ApplyAll("{title}", Replacements(data, user)) == FieldValue(data, "title")
  {
    var reps := Replacements(data, user);
    var title := FieldValue(data, "title");
    assert DataFields[0] == "title" && Placeholder("title") == "{title}";
    assert reps[0] == ("{title}", title);
    assert reps == [reps[0]] + reps[1..];
    ApplyAllAppend("{title}", [reps[0]], reps[1..]);
    ApplyOne("{title}", reps[0]);
    ReplaceWhole("{title}", title);
    ApplyAllAbsent(title, reps[1..]);
  }

  /** Applying a single replacement is one `replace` call. */
  lemma ApplyOne(text: string, p: (string, string))
    requires |p.0| > 0
    ensures KeysNonEmpty([p]) && ApplyAll(text, [p]) == Replace(text, p.0, p.1)
  {
    assert [p][..0] == [];
  }

  // split_zip_folder

  /** `MAX_SIZE` is 1.9 GiB as a float; for whole byte counts, exceeding it means exceeding this. */
  const MaxSize: nat := 2040109465

  function Sum(s: seq<nat>): nat {
    if |s| == 0 then 0 else Sum(s[..|s| - 1]) + s[|s| - 1]
  }

  function Flatten(gs: seq<seq<nat>>): seq<nat> {
    if |gs| == 0 then [] else Flatten(gs[..|gs| - 1]) + gs[|gs| - 1]
  }

  /** The file of part `n`: "name.zip" for the first, "name.partN.zip" after it. */
  function PartName(folder: string, n: nat): string {
    if n == 1 then folder + ".zip" else folder + ".part" + NatToString(n) + ".zip"
  }

  /** The files of parts 1 to `n`, in order. */
  function PartNames(folder: string, n: nat): (r: seq<string>)
    ensures |r| == n && forall k :: 0 <= k < n ==> r[k] == PartName(folder, k + 1)
  {
    if n == 0 then [] else PartNames(folder, n - 1) + [PartName(folder, n)]
  }

  lemma FlattenSnoc(gs: seq<seq<nat>>, g: seq<nat>)
    ensures Flatten(gs + [g]) == Flatten(gs) + g
  {
    assert (gs + [g])[..|gs|] == gs;
  }

  /** Part `k` was closed because the first file of part `k + 1` would have taken it over the limit. */
  predicate ClosedBefore(gs: seq<seq<nat>>, k: nat)
    requires k + 1 < |gs|
  {
    gs[k + 1] != [] && Sum(gs[k]) + gs[k + 1][0] > MaxSize
  }

  /**
   * What holds of the closed parts: a part of two or more files is within the limit,
   * only the first part can be empty (when the first file alone is over the limit),
   * and every part was closed because the next file did not fit.
   */
  predicate PartsOk(sizes: seq<nat>, gs: seq<seq<nat>>)
  {
    && (forall k :: 0 <= k < |gs| && |gs[k]| >= 2 ==> Sum(gs[k]) <= MaxSize)
    && (forall k :: 0 <= k < |gs| && gs[k] == [] ==> k == 0 && |sizes| > 0 && sizes[0] > MaxSize)
    && (forall k: nat :: k + 1 < |gs| ==> ClosedBefore(gs, k))
  }

  /** The state of the walk after the first `i` files: closed parts `gs`, open part `cur`. */
  predicate SplitSoFar(sizes: seq<nat>, i: nat, gs: seq<seq<nat>>, cur: seq<nat>)
    requires i <= |sizes|
  {
    && Flatten(gs) + cur == sizes[..i]
    && PartsOk(sizes, gs)
    && (|cur| >= 2 ==> Sum(cur) <= MaxSize)
    && (i > 0 && sizes[0] > MaxSize ==> |gs| > 0 && gs[0] == [])
    && (i == 0 <==> cur == [])
    && (i == 0 ==> gs == [])
    && (|gs| > 0 ==> cur != [] && Sum(gs[|gs| - 1]) + cur[0] > MaxSize)
  }

  /** Adding the next file: either to the open part, or to a new part after closing the open one. */
  lemma AddFile(sizes: seq<nat>, i: nat, gs: seq<seq<nat>>, cur: seq<nat>)
    requires i < |sizes| && SplitSoFar(sizes, i, gs, cur)
    ensures Sum(cur) + sizes[i] > MaxSize ==> SplitSoFar(sizes, i + 1, gs + [cur], [sizes[i]])
    ensures Sum(cur) + sizes[i] <= MaxSize ==> SplitSoFar(sizes, i + 1, gs, cur + [sizes[i]])
  {
    if Sum(cur) + sizes[i] > MaxSize {
      AddFileClose(sizes, i, gs, cur);
    } else {
      AddFileExtend(sizes, i, gs, cur);
    }
  }

  lemma AddFileClose(sizes: seq<nat>, i: nat, gs: seq<seq<nat>>, cur: seq<nat>)
    requires i < |sizes| && SplitSoFar(sizes, i, gs, cur) && Sum(cur) + sizes[i] > MaxSize
    ensures SplitSoFar(sizes, i + 1, gs + [cur], [sizes[i]])
  {
    assert sizes[..i + 1] == sizes[..i] + [sizes[i]];
    CloseStep(sizes, gs, cur);
    FlattenSnoc(gs, cur);
    assert [sizes[i]][..0] == [];
    assert |gs| > 0 ==> (gs + [cur])[0] == gs[0];
  }

  lemma AddFileExtend(sizes: seq<nat>, i: nat, gs: seq<seq<nat>>, cur: seq<nat>)
    requires i < |sizes| && SplitSoFar(sizes, i, gs, cur) && Sum(cur) + sizes[i] <= MaxSize
    ensures SplitSoFar(sizes, i + 1, gs, cur + [sizes[i]])
  {
    var next := cur + [sizes[i]];
    assert sizes[..i + 1] == sizes[..i] + [sizes[i]];
    assert Flatten(gs) + next == sizes[..i + 1];
    assert next[..|cur|] == cur;
    assert Sum(next) == Sum(cur) + sizes[i];
    if i == 0 {
      assert cur == [] && gs == [] && sizes[0] == sizes[i];
    } else {
      assert next[0] == cur[0];
    }
  }

  /** The variables of `split_zip_folder`'s loop after the first `i` files. */
  ghost predicate SplitLoop(folder: string, sizes: seq<nat>, i: nat, groups: seq<seq<nat>>, current: seq<nat>,
                            currentSize: int, partNum: int, paths: seq<string>)
  {
    && i <= |sizes| && SplitSoFar(sizes, i, groups, current)
    && currentSize == Sum(current) && partNum == |groups| + 1 && paths == PartNames(folder, |groups|)
  }

  /** A file that does not fit closes the open part and starts the next one. */
  lemma SplitClose(folder: string, sizes: seq<nat>, i: nat, groups: seq<seq<nat>>, current: seq<nat>,
                   currentSize: int, partNum: int, paths: seq<string>)
    requires i < |sizes| && SplitLoop(folder, sizes, i, groups, current, currentSize, partNum, paths)
    requires currentSize + sizes[i] > MaxSize
    ensures SplitLoop(folder, sizes, i + 1, groups + [current], [] + [sizes[i]], 0 + sizes[i], partNum + 1,
                      paths + [PartName(folder, partNum)])
  {
    AddFile(sizes, i, groups, current);
    assert [] + [sizes[i]] == [sizes[i]];
    assert Sum([sizes[i]]) == sizes[i];
  }

  /** A file that fits joins the open part. */
  lemma SplitExtend(folder: string, sizes: seq<nat>, i: nat, groups: seq<seq<nat>>, current: seq<nat>,
                    currentSize: int, partNum: int, paths: seq<string>)
    requires i < |sizes| && SplitLoop(folder, sizes, i, groups, current, currentSize, partNum, paths)
    requires currentSize + sizes[i] <= MaxSize
    ensures SplitLoop(folder, sizes, i + 1, groups, current + [sizes[i]], currentSize + sizes[i], partNum, paths)
  {
    AddFile(sizes, i, groups, current);
    assert (current + [sizes[i]])[..|current|] == current;
  }

  /**
   * `split_zip_folder` over the walk-order file sizes: a part is closed when the next file
   * would take it over `MAX_SIZE`. The parts returned are the groups of sizes, with the
   * zip file each is written to.
   */
  method SplitZipFolder(folder: string, sizes: seq<nat>) returns (groups: seq<seq<nat>>, paths: seq<string>)
    ensures Flatten(groups) == sizes
    ensures |paths| == |groups| && forall k :: 0 <= k < |groups| ==> paths[k] == PartName(folder, k + 1)
    ensures forall k :: 0 <= k < |groups| && |groups[k]| >= 2 ==> Sum(groups[k]) <= MaxSize
    ensures forall k :: 0 <= k < |groups| && groups[k] == [] ==> k == 0 && |sizes| > 0 && sizes[0] > MaxSize
    ensures |sizes| > 0 && sizes[0] > MaxSize ==> groups[0] == []
    ensures forall k: nat :: k + 1 < |groups| ==> ClosedBefore(groups, k)
    ensures sizes == [] <==> groups == []
  {
    groups, paths := [], [];
    var partNum := 1;
    var current: seq<nat> := [];
    var currentSize := 0;
    for i := 0 to |sizes|
      invariant SplitLoop(folder, sizes, i, groups, current, currentSize, partNum, paths)
    {
      if currentSize + sizes[i] > MaxSize {
        SplitClose(folder, sizes, i, groups, current, currentSize, partNum, paths);
        paths := paths + [PartName(folder, partNum)];
        groups := groups + [current];
        partNum := partNum + 1;
        current := [];
        currentSize := 0;
      } else {
        SplitExtend(folder, sizes, i, groups, current, currentSize, partNum, paths);
      }
      current := current + [sizes[i]];
      currentSize := currentSize + sizes[i];
    }
    SplitDone(folder, sizes, groups, current, currentSize, partNum, paths);
    if current != [] {
      paths := paths + [PartName(folder, partNum)];
      groups := groups + [current];
    }
  }

  /** After the last file the open part, if any, is written too, and the result is complete. */
  lemma SplitDone(folder: string, sizes: seq<nat>, groups: seq<seq<nat>>, current: seq<nat>,
                  currentSize: int, partNum: int, paths: seq<string>)
    requires SplitLoop(folder, sizes, |sizes|, groups, current, currentSize, partNum, paths)
    ensures var gs := if current != [] then groups + [current] else groups;
      var ps := if current != [] then paths + [PartName(folder, partNum)] else paths;
      && Flatten(gs) == sizes
      && |ps| == |gs| && (forall k :: 0 <= k < |gs| ==> ps[k] == PartName(folder, k + 1))
      && (forall k :: 0 <= k < |gs| && |gs[k]| >= 2 ==> Sum(gs[k]) <= MaxSize)
      && (forall k :: 0 <= k < |gs| && gs[k] == [] ==> k == 0 && |sizes| > 0 && sizes[0] > MaxSize)
      && (|sizes| > 0 && sizes[0] > MaxSize ==> gs[0] == [])
      && (forall k: nat :: k + 1 < |gs| ==> ClosedBefore(gs, k))
      && (sizes == [] <==> gs == [])
  {
    Finish(sizes, groups, current);
    var ps := if current != [] then paths + [PartName(folder, partNum)] else paths;
    assert ps == PartNames(folder, if current != [] then |groups| + 1 else |groups|);
  }

  /** After the last file, the open part (if any) is closed too. */
  lemma Finish(sizes: seq<nat>, gs: seq<seq<nat>>, cur: seq<nat>)
    requires SplitSoFar(sizes, |sizes|, gs, cur)
    ensures var parts := if cur != [] then gs + [cur] else gs;
      && Flatten(parts) == sizes
      && PartsOk(sizes, parts)
      && (|sizes| > 0 && sizes[0] > MaxSize ==> parts[0] == [])
      && (sizes == [] <==> parts == [])
  {
    assert sizes[..|sizes|] == sizes;
    if cur != [] {
      CloseStep(sizes, gs, cur);
      FlattenSnoc(gs, cur);
    }
  }

  /** Closing the current part keeps what holds of the closed parts. */
  lemma CloseStep(sizes: seq<nat>, groups: seq<seq<nat>>, current: seq<nat>)
    requires PartsOk(sizes, groups)
    requires |current| >= 2 ==> Sum(current) <= MaxSize
    requires |groups| > 0 ==> current != [] && Sum(groups[|groups| - 1]) + current[0] > MaxSize
    requires current == [] ==> groups == [] && |sizes| > 0 && sizes[0] > MaxSize
    ensures PartsOk(sizes, groups + [current])
  {
    var gs := groups + [current];
    forall k | 0 <= k < |gs| && |gs[k]| >= 2
      ensures Sum(gs[k]) <= MaxSize
    {
      if k < |groups| { assert gs[k] == groups[k]; }
    }
    forall k | 0 <= k < |gs| && gs[k] == []
      ensures k == 0 && |sizes| > 0 && sizes[0] > MaxSize
    {
      if k < |groups| { assert gs[k] == groups[k]; }
    }
    forall k: nat | k + 1 < |gs|
      ensures ClosedBefore(gs, k)
    {
      assert gs[k] == groups[k];
      if k + 1 < |groups| {
        assert gs[k + 1] == groups[k + 1];
        assert ClosedBefore(groups, k);
      } else {
        assert gs[k + 1] == current;
      }
    }
  }

  /** Different part numbers are written to different files. */
  lemma PartNamesDistinct(folder: string, m: nat, n: nat)
    requires 1 <= m && 1 <= n && m != n
    ensures PartName(folder, m) != PartName(folder, n)
  {
    if m != 1 && n != 1 {
      var a, b := PartName(folder, m), PartName(folder, n);
      if a == b {
        assert |NatToString(m)| == |NatToString(n)|;
        assert NatToString(m) == a[|folder| + 5..|a| - 4] == b[|folder| + 5..|b| - 4] == NatToString(n);
        NatToStringInjective(m, n);
      }
    } else {
      var a, b := PartName(folder, m), PartName(folder, n);
      assert |a| != |b|;
    }
  }

  // create_apple_zip

  /** The characters the sanitising `re.sub` deletes: backslash, slash, star, question mark, colon, double quote, angle brackets and bar. */
  predicate Forbidden(c: char) {
    c in "\\/*?:\"<>|"
  }

  function RemoveForbidden(s: string): (r: string)
    ensures forall i :: 0 <= i < |r| ==> !Forbidden(r[i])
    ensures |r| <= |s|
    ensures (forall i :: 0 <= i < |s| ==> !Forbidden(s[i])) ==> r == s
  {
    if |s| == 0 then ""
    else
      var r := RemoveForbidden(s[..|s| - 1]);
      assert forall i :: 0 <= i < |s| - 1 ==> s[..|s| - 1][i] == s[i];
      if Forbidden(s[|s| - 1]) then r else r + [s[|s| - 1]]
  }

  /** `s.replace(' ', '_')`. */
  function Underscored(s: string): (r: string)
    ensures |r| == |s| && forall i :: 0 <= i < |s| ==> r[i] == if s[i] == ' ' then '_' else s[i]
  {
    seq(|s|, i requires 0 <= i < |s| => if s[i] == ' ' then '_' else s[i])
  }

  /** The sanitised name: forbidden characters deleted, spaces made underscores, cut to 100 characters. */
  function SafeName(title: string): (r: string)
    ensures |r| <= 100
    ensures forall i :: 0 <= i < |r| ==> !Forbidden(r[i]) && r[i] != ' '
  {
    var u := Underscored(RemoveForbidden(title));
    if |u| <= 100 then u else u[..100]
  }

  /** A name that is already safe and short is kept; so sanitising twice changes nothing more. */
  lemma SafeNameKeepsSafe(title: string)
    requires |title| <= 100 && forall i :: 0 <= i < |title| ==> !Forbidden(title[i]) && title[i] != ' '
    ensures SafeName(title) == title
  {
  }

  lemma SafeNameIdempotent(title: string)
    ensures SafeName(SafeName(title)) == SafeName(title)
  {
    SafeNameKeepsSafe(SafeName(title));
  }

  /** Python's `s.capitalize()` (ASCII letters). */
  function Capitalize(s: string): (r: string)
    ensures |r| == |s|
  {
    if |s| == 0 then s else [UpperChar(s[0])] + Lower(s[1..])
  }

  /** The type test `capitalize().lower()` does not depend on how the type was written. */
  lemma CapitalizeLower(s: string)
    ensures Lower(Capitalize(s)) == Lower(s)
  {
    if |s| > 0 {
      var c := Capitalize(s);
      forall i | 0 <= i < |s|
        ensures Lower(c)[i] == Lower(s)[i]
      {
        if i == 0 {
          assert LowerChar(UpperChar(s[0])) == LowerChar(s[0]);
        } else {
          assert c[i] == Lower(s[1..])[i - 1] == LowerChar(s[i]);
        }
      }
    }
  }

  /** The descriptive name, before ".zip": provider in brackets, the safe title, and a playlist mark. */
  function ZipName(contentType: Option<string>, title: Option<string>, provider: Option<string>): (r: string)
    ensures StartsWith(r, "[" + provider.GetOr("Apple Music") + "] ")
    ensures EndsWith(r, " (Playlist)") <== Lower(contentType.GetOr("album")) == "playlist"
    ensures r == "[" + provider.GetOr("Apple Music") + "] " + SafeName(title.GetOr("Unknown"))
                 + (if Lower(contentType.GetOr("album")) == "playlist" then " (Playlist)" else "")
  {
    var kind := Capitalize(contentType.GetOr("album"));
    var safe := SafeName(title.GetOr("Unknown"));
    var prefix := "[" + provider.GetOr("Apple Music") + "] ";
    CapitalizeLower(contentType.GetOr("album"));
    var r := if Lower(kind) == "playlist" then prefix + safe + " (Playlist)" else prefix + safe;
    assert r[..|prefix|] == prefix;
    r
  }

  /**
   * A title that is already safe appears unchanged after the bracketed provider, followed
   * by the playlist mark exactly for the playlist type, whatever its capitalisation.
   */
  lemma ZipNameKeepsSafeTitle(contentType: Option<string>, title: string, provider: Option<string>)
    requires |title| <= 100 && forall i :: 0 <= i < |title| ==> !Forbidden(title[i]) && title[i] != ' '
    ensures ZipName(contentType, Some(title), provider)
      == "[" + provider.GetOr("Apple Music") + "] " + title
         + (if Lower(contentType.GetOr("album")) == "playlist" then " (Playlist)" else "")
  {
    SafeNameKeepsSafe(title);
  }

  /** The file name tried on the `n`-th attempt: "name.zip", then "name_1.zip", "name_2.zip", ... */
  function Candidate(name: string, n: nat): string {
    if n == 0 then name + ".zip" else name + "_" + NatToString(n) + ".zip"
  }

  lemma CandidateInjective(name: string, m: nat, n: nat)
    requires Candidate(name, m) == Candidate(name, n)
    ensures m == n
  {
    var a, b := Candidate(name, m), Candidate(name, n);
    if m != 0 && n != 0 {
      assert |NatToString(m)| == |NatToString(n)|;
      assert NatToString(m) == a[|name| + 1..|a| - 4] == b[|name| + 1..|b| - 4] == NatToString(n);
      NatToStringInjective(m, n);
    } else {
      assert m != n ==> |a| != |b|;
    }
  }

  /** The first `n` candidates. */
  function CandidatesBelow(name: string, n: nat): (r: set<string>)
    ensures forall m :: 0 <= m < n ==> Candidate(name, m) in r
  {
    if n == 0 then {} else CandidatesBelow(name, n - 1) + {Candidate(name, n - 1)}
  }

  lemma {:induction false} CandidatesBelowCard(name: string, n: nat)
    ensures |CandidatesBelow(name, n)| == n
  {
    if n > 0 {
      CandidatesBelowCard(name, n - 1);
      CandidatesBelowOnly(name, n - 1, Candidate(name, n - 1));
    }
  }

  lemma {:induction false} CandidatesBelowOnly(name: string, n: nat, x: string)
    ensures x in CandidatesBelow(name, n) ==> exists m :: 0 <= m < n && x == Candidate(name, m)
    ensures x == Candidate(name, n) ==> x !in CandidatesBelow(name, n)
  {
    if n > 0 {
      CandidatesBelowOnly(name, n - 1, x);
      if x == Candidate(name, n) && x in CandidatesBelow(name, n - 1) {
        var m :| 0 <= m < n - 1 && x == Candidate(name, m);
        CandidateInjective(name, m, n);
      }
      if x == Candidate(name, n) {
        if x == Candidate(name, n - 1) {
          CandidateInjective(name, n - 1, n);
        }
      }
    }
  }

  lemma {:induction false} SubsetCard(a: set<string>, b: set<string>)
    requires a <= b
    ensures |a| <= |b|
    decreases |a|
  {
    if a != {} {
      var x :| x in a;
      SubsetCard(a - {x}, b - {x});
    }
  }

  /**
   * The uniqueness loop of `create_apple_zip`: the first candidate that is not among the
   * existing names. It always stops, since the existing names are finitely many.
   */
  method UniqueZipName(name: string, existing: set<string>) returns (path: string)
    ensures path !in existing
    ensures exists n :: path == Candidate(name, n) && CandidatesBelow(name, n) <= existing
  {
    var counter := 1;
    path := Candidate(name, 0);
    while path in existing
      invariant counter >= 1
      invariant path == Candidate(name, counter - 1)
      invariant CandidatesBelow(name, counter - 1) <= existing
      decreases |existing| - (counter - 1)
    {
      CandidatesBelowCard(name, counter);
      SubsetCard(CandidatesBelow(name, counter), existing);
      path := Candidate(name, counter);
      counter := counter + 1;
    }
  }

  // progress_message

  /** Python's `math.floor(a / b)` for a non-zero divisor. */
  function FloorDiv(a: int, b: int): (q: int)
    requires b != 0
    ensures b > 0 ==> q * b <= a < q * b + b
    ensures b < 0 ==> q * b >= a > q * b + b
  {
    if b > 0 then a / b else (-a) / (-b)
  }

  /** `"▰" * filled + "▱" * empty` with `filled = floor(done / total * 10)`; no total divides by zero. */
  function ProgressBar(done: int, total: int): (r: Result<string>)
    ensures total == 0 <==> r.Err?
    ensures total > 0 && 0 <= done <= total ==> |r.value| == 10
  {
    if total == 0 then Err("division by zero")
    else
      var filled := FloorDiv(10 * done, total);
      FilledInRange(done, total);
      var empty := 10 - filled;
      Ok(Repeat('▰', if filled > 0 then filled else 0) + Repeat('▱', if empty > 0 then empty else 0))
  }

  /** Within range, between none and all ten segments are filled. */
  lemma FilledInRange(done: int, total: int)
    requires total != 0
    ensures total > 0 && 0 <= done <= total ==> 0 <= FloorDiv(10 * done, total) <= 10
  {
    if total > 0 && 0 <= done <= total {
      DivMonotone(10 * done, 10 * total, total);
      var q, r := 10 * total / total, 10 * total % total;
      assert total * q + r == 10 * total;
      if q > 10 {
        MulMonotone(total, q, 11);
      } else if q < 10 {
        MulMonotone(total, 9, q);
      }
    }
  }

  /** Within range, the bar fills one segment per tenth of the total, and fills as `done` grows. */
  lemma ProgressBarFills(done: int, done': int, total: int, k: nat)
    requires 0 <= done <= done' <= total && 0 < total && k < 10
    ensures ProgressBar(done, total).value[k] == '▰' <==> k < 10 * done / total
    ensures ProgressBar(done, total).value[k] == '▰' ==> ProgressBar(done', total).value[k] == '▰'
  {
    assert 10 * done / total <= 10 * done' / total by {
      DivMonotone(10 * done, 10 * done', total);
    }
  }

  lemma DivMonotone(a: int, b: int, d: int)
    requires 0 <= a <= b && 0 < d
    ensures a / d <= b / d
  {
    var qa, qb := a / d, b / d;
    assert d * qa + a % d == a;
    assert d * qb + b % d == b;
    MulMonotone(d, qa, qb + 1);
    assert d * (qb + 1) == d * qb + d;
  }

  lemma MulMonotone(d: int, x: int, y: int)
    requires d > 0
    ensures x >= y ==> d * x >= d * y
  {
    if x >= y {
      assert d * x - d * y == d * (x - y);
    }
  }
}
