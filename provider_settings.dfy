/**
 * The provider settings of bot/modules/provider_settings.py: the Apple format and quality
 * callbacks, the Qobuz and Tidal label-to-code lookups, and the Tidal spatial-audio
 * button. The `tidalapi` session object is imported from bot/helpers/tidal/tidal_api.py,
 * which is not part of this model: `TidalSession` stands for the fields the handlers use.
 */
module ProviderSettings {
  import opened Wrappers
  import opened Strings
  import opened Dynamic
  import opened Assoc
  import opened Cycle
  import opened BotSettings
  import opened PgImpl

  // ---------------------------------------------------------------------------
  // Callback data

  lemma SplitAt(a: string, c: char, rest: string)
    requires c !in a
    ensures Split(a + [c] + rest, c) == [a] + Split(rest, c)
  {
    var s := a + [c] + rest;
    var i := FirstIndex(s, c);
    assert s[|a|] == c;
    assert s[..|a|] == a;
    assert i == |a| by {
      assert forall k :: 0 <= k < i ==> s[..i][k] == s[k];
      assert forall k :: 0 <= k < |a| ==> s[k] == a[k];
    }
    assert s[i + 1..] == rest;
  }

  /** A text without the separator is one part. */
  lemma SplitWhole(a: string, c: char)
    requires c !in a
    ensures Split(a, c) == [a]
  {
  }

  /** "a_b_c" with no '_' inside the three parts splits into exactly those parts. */
  lemma SplitThree(a: string, b: string, c: string)
    requires '_' !in a && '_' !in b && '_' !in c
    ensures Split(a + "_" + b + "_" + c, '_') == [a, b, c]
  {
    assert a + "_" + b + "_" + c == a + ['_'] + (b + ['_'] + c);
    SplitAt(a, '_', b + ['_'] + c);
    SplitAt(b, '_', c);
    SplitWhole(c, '_');
  }

  /**
   * `apple_set_quality_cb`'s unpacking of "appleSQ_<format>_<quality>": the setting
   * `APPLE_<FORMAT>_QUALITY` and its new value, or None where the three-way unpacking raises.
   */
  function AppleQualitySetting(data: string): (r: Option<(string, string)>)
    ensures r.Some? <==> |Split(data, '_')| == 3
    ensures r.Some? ==> r.value == ("APPLE_" + Upper(Split(data, '_')[1]) + "_QUALITY", Split(data, '_')[2])
  {
    var parts := Split(data, '_');
    if |parts| == 3 then Some(("APPLE_" + Upper(parts[1]) + "_QUALITY", parts[2])) else None
  }

  /** The data a quality button carries is read back as that format's setting and that quality. */
  lemma AppleQualityRoundTrip(format: string, quality: string)
    requires '_' !in format && '_' !in quality
    ensures AppleQualitySetting("appleSQ_" + format + "_" + quality)
         == Some(("APPLE_" + Upper(format) + "_QUALITY", quality))
  {
    assert "appleSQ_" + format + "_" + quality == "appleSQ" + "_" + format + "_" + quality;
    SplitThree("appleSQ", format, quality);
  }

  /** `apple_format_cb`'s `split('_')[1]`: None where there is no '_'. */
  function AppleFormatOf(data: string): (r: Option<string>)
    ensures r.Some? <==> |Split(data, '_')| >= 2
  {
    var parts := Split(data, '_');
    if |parts| >= 2 then Some(parts[1]) else None
  }

  /** The attributes of the `Config` class that the callbacks overwrite with `setattr`. */
  class ConfigOverrides {
    var attrs: map<string, string>

    constructor ()
      ensures attrs == map[]
    {
      attrs := map[];
    }
  }

  /** `apple_set_quality_cb`: stores the quality in the table and in `Config`. */
  method AppleQualityButton(bot: BotSet, db: SettingsTable, config: ConfigOverrides, uid: int, data: string, now: int)
    returns (r: Result<()>)
    modifies db, config
    ensures uid in bot.s.admins && AppleQualitySetting(data).Some? ==>
      var (name, quality) := AppleQualitySetting(data).value;
      && r.Ok?
      && db.rows == Upsert(old(db.rows), name, StrV(quality), false, None, now)
      && config.attrs == old(config.attrs)[name := quality]
    ensures !(uid in bot.s.admins && AppleQualitySetting(data).Some?) ==>
      db.rows == old(db.rows) && config.attrs == old(config.attrs)
    ensures r.Err? <==> uid in bot.s.admins && AppleQualitySetting(data).None?
  {
    r := Ok(());
    if uid in bot.s.admins {
      match AppleQualitySetting(data)
      case None =>
        r := Err("ValueError");
      case Some(setting) =>
        db.SetVariable(setting.0, StrV(setting.1), false, None, now);
        config.attrs := config.attrs[setting.0 := setting.1];
    }
  }

  /** `apple_format_cb`: stores the default format in the table and in `Config`. */
  method AppleFormatButton(bot: BotSet, db: SettingsTable, config: ConfigOverrides, uid: int, data: string, now: int)
    returns (r: Result<()>)
    modifies db, config
    ensures uid in bot.s.admins && AppleFormatOf(data).Some? ==>
      && r.Ok?
      && db.rows == Upsert(old(db.rows), "APPLE_DEFAULT_FORMAT", StrV(AppleFormatOf(data).value), false, None, now)
      && config.attrs == old(config.attrs)["APPLE_DEFAULT_FORMAT" := AppleFormatOf(data).value]
    ensures !(uid in bot.s.admins && AppleFormatOf(data).Some?) ==>
      db.rows == old(db.rows) && config.attrs == old(config.attrs)
    ensures r.Err? <==> uid in bot.s.admins && AppleFormatOf(data).None?
  {
    r := Ok(());
    if uid in bot.s.admins {
      match AppleFormatOf(data)
      case None =>
        r := Err("IndexError");
      case Some(format) =>
        db.SetVariable("APPLE_DEFAULT_FORMAT", StrV(format), false, None, now);
        config.attrs := config.attrs["APPLE_DEFAULT_FORMAT" := format];
    }
  }

  // ---------------------------------------------------------------------------
  // Label-to-code lookups

  /** `list(filter(lambda x: d[x] == label, d))[0]`: the first key whose label matches. */
  function KeyFor<K, V(==)>(d: Dict<K, V>, want: V): (r: Option<K>)
    ensures r.None? <==> forall i :: 0 <= i < |d| ==> d[i].1 != want
    ensures r.Some? ==> exists i :: 0 <= i < |d| && d[i] == (r.value, want)
  {
    if |d| == 0 then None
    else if d[0].1 == want then Some(d[0].0)
    else
      var r := KeyFor(d[1..], want);
      assert forall i :: 1 <= i < |d| ==> d[1..][i - 1] == d[i];
      r
  }

  function Labels<K, V>(d: Dict<K, V>): (vs: seq<V>)
    ensures |vs| == |d| && forall i :: 0 <= i < |d| ==> vs[i] == d[i].1
  {
    seq(|d|, i requires 0 <= i < |d| => d[i].1)
  }

  /** With no label used twice, looking up an entry's label gives back that entry's key. */
  lemma {:induction false} KeyForLabel<K, V>(d: Dict<K, V>, i: nat)
    requires i < |d| && Distinct(Labels(d))
    ensures KeyFor(d, d[i].1) == Some(d[i].0)
    decreases i
  {
    if i > 0 {
      assert Labels(d)[0] != Labels(d)[i];
      var t := d[1..];
      assert Distinct(Labels(t)) by {
        forall a, b | 0 <= a < b < |t|
          ensures Labels(t)[a] != Labels(t)[b]
        {
          assert Labels(d)[a + 1] != Labels(d)[b + 1];
        }
      }
      KeyForLabel(t, i - 1);
    }
  }

  /** The Qobuz qualities and their labels, in the order of the dict literal. */
  const QobuzQualities: Dict<int, string> := [(5, "MP3 320"), (6, "Lossless"), (7, "24B<=96KHZ"), (27, "24B>96KHZ")]

  /** The Tidal qualities and their button labels; HI_RES is labelled MAX. */
  const TidalQualities: Dict<string, string> := [("LOW", "LOW"), ("HIGH", "HIGH"), ("LOSSLESS", "LOSSLESS"), ("HI_RES", "MAX")]

  lemma QobuzLabelsDistinct()
    ensures Distinct(Labels(QobuzQualities))
  {
    var l := Labels(QobuzQualities);
    assert l[0][0] == 'M' && l[1][0] == 'L' && l[2][0] == '2' && l[3][0] == '2';
    assert l[2][3] == '<' && l[3][3] == '>';
  }

  /** `qobuz_quality_cb`'s lookup is the inverse of the code-to-label table: each label gives back its code. */
  lemma QobuzLookupInverse(i: nat)
    requires i < |QobuzQualities|
    ensures KeyFor(QobuzQualities, QobuzQualities[i].1) == Some(QobuzQualities[i].0)
  {
    QobuzLabelsDistinct();
    KeyForLabel(QobuzQualities, i);
  }

  lemma TidalLabelsDistinct()
    ensures Distinct(Labels(TidalQualities))
  {
    var l := Labels(TidalQualities);
    assert |l[0]| == 3 && |l[1]| == 4 && |l[2]| == 8 && |l[3]| == 3;
    assert l[0][0] == 'L' && l[3][0] == 'M';
  }

  /** `tidal_set_quality_cb`'s lookup: MAX gives HI_RES and the other labels give themselves. */
  lemma TidalLookup()
    ensures KeyFor(TidalQualities, "MAX") == Some("HI_RES")
    ensures KeyFor(TidalQualities, "LOW") == Some("LOW")
    ensures KeyFor(TidalQualities, "HIGH") == Some("HIGH")
    ensures KeyFor(TidalQualities, "LOSSLESS") == Some("LOSSLESS")
  {
    TidalLabelsDistinct();
    KeyForLabel(TidalQualities, 0);
    KeyForLabel(TidalQualities, 1);
    KeyForLabel(TidalQualities, 2);
    KeyForLabel(TidalQualities, 3);
  }

  // ---------------------------------------------------------------------------
  // Tidal spatial audio

  /** The spatial options: OFF and ATMOS AC3 JOC always, ATMOS AC4 with mobile Atmos, Sony 360RA with either mobile session. */
  function SpatialOptions(mobileAtmos: bool, mobileHires: bool): (r: seq<string>)
    ensures 2 <= |r| <= 4 && r[..2] == ["OFF", "ATMOS AC3 JOC"]
    ensures "ATMOS AC4" in r <==> mobileAtmos
    ensures "Sony 360RA" in r <==> mobileAtmos || mobileHires
    ensures |r| == 2 + (if mobileAtmos then 1 else 0) + (if mobileAtmos || mobileHires then 1 else 0)
  {
    var r := ["OFF", "ATMOS AC3 JOC"] + (if mobileAtmos then ["ATMOS AC4"] else []);
    var r' := r + (if mobileAtmos || mobileHires then ["Sony 360RA"] else []);
    assert "ATMOS AC4" != "Sony 360RA" && "ATMOS AC4" != "OFF" && "ATMOS AC4" != "ATMOS AC3 JOC" by {
      assert |"ATMOS AC4"| == 9 && |"Sony 360RA"| == 10 && |"OFF"| == 3 && |"ATMOS AC3 JOC"| == 13;
    }
    assert "Sony 360RA" != "OFF" && "Sony 360RA" != "ATMOS AC3 JOC" by {
      assert |"Sony 360RA"| == 10 && |"OFF"| == 3 && |"ATMOS AC3 JOC"| == 13;
    }
    r'
  }

  lemma SpatialOptionsDistinct(mobileAtmos: bool, mobileHires: bool)
    ensures Distinct(SpatialOptions(mobileAtmos, mobileHires))
  {
    var o := SpatialOptions(mobileAtmos, mobileHires);
    forall i, j | 0 <= i < j < |o|
      ensures o[i] != o[j]
    {
      assert |o[i]| != |o[j]|;
    }
  }

  /** The position the spatial button starts from: the current value's, or 0 when it is not an option. */
  function SpatialIndex(options: seq<string>, current: string): (i: nat)
    ensures current in options ==> i < |options| && options[i] == current
    ensures current !in options ==> i == 0
  {
    match IndexOf(options, current)
    case None => 0
    case Some(i) => i
  }

  /** The spatial value after one press as written: position `(current + 1) % 4`, None where that raises IndexError. */
  function SpatialNextAsWritten(options: seq<string>, current: string): (r: Option<string>)
    ensures r.None? <==> (SpatialIndex(options, current) + 1) % 4 >= |options|
  {
    var n := (SpatialIndex(options, current) + 1) % 4;
    if n < |options| then Some(options[n]) else None
  }

  /** The written press fails exactly when there are fewer than four options and the current one is the last. */
  lemma SpatialAsWrittenFailsIff(mobileAtmos: bool, mobileHires: bool, current: string)
    ensures var o := SpatialOptions(mobileAtmos, mobileHires);
      SpatialNextAsWritten(o, current).None? <==> |o| < 4 && SpatialIndex(o, current) == |o| - 1
  {
    var o := SpatialOptions(mobileAtmos, mobileHires);
    var i := SpatialIndex(o, current);
    if i + 1 < 4 {
      ModUnique(i + 1, 4, 0, i + 1);
    } else {
      ModUnique(i + 1, 4, 1, 0);
    }
  }

  /** With fewer than four options, a press from the last option fails. */
  lemma SpatialAsWrittenFails(mobileHires: bool)
    ensures SpatialNextAsWritten(SpatialOptions(false, false), "ATMOS AC3 JOC").None?
    ensures SpatialNextAsWritten(SpatialOptions(false, true), "Sony 360RA").None?
  {
    SpatialOptionsDistinct(false, false);
    IndexOfDistinct(SpatialOptions(false, false), 1);
    SpatialOptionsDistinct(false, true);
    IndexOfDistinct(SpatialOptions(false, true), 2);
  }

  /** The spatial value after one press, wrapping at the number of options. */
  function SpatialNext(options: seq<string>, current: string): (r: string)
    requires |options| > 0
    ensures r in options
    ensures current in options ==> Next(options, current) == Some(r)
    ensures current !in options ==> r == options[1 % |options|]
  {
    options[(SpatialIndex(options, current) + 1) % |options|]
  }

  /** The corrected button agrees with the written one whenever the written one does not fail. */
  lemma SpatialNextAgrees(mobileAtmos: bool, mobileHires: bool, current: string)
    ensures var o := SpatialOptions(mobileAtmos, mobileHires);
      SpatialNextAsWritten(o, current).Some? ==> SpatialNextAsWritten(o, current) == Some(SpatialNext(o, current))
  {
    var o := SpatialOptions(mobileAtmos, mobileHires);
    var i := SpatialIndex(o, current);
    if i + 1 < |o| {
      ModUnique(i + 1, 4, 0, i + 1);
      ModUnique(i + 1, |o|, 0, i + 1);
    } else if |o| == 4 {
      ModUnique(i + 1, 4, 1, 0);
    } else {
      ModUnique(i + 1, 4, 0, i + 1);
    }
  }

  /** With every option on offer, pressing once per option comes back round to the start. */
  lemma SpatialCycle(mobileAtmos: bool, mobileHires: bool, current: string)
    requires current in SpatialOptions(mobileAtmos, mobileHires)
    ensures var o := SpatialOptions(mobileAtmos, mobileHires); Presses(o, current, |o|) == Some(current)
  {
    SpatialOptionsDistinct(mobileAtmos, mobileHires);
    FullCircle(SpatialOptions(mobileAtmos, mobileHires), current);
  }

  /** The `tidalapi` session fields the Tidal handlers read and set. */
  class TidalSession {
    var spatial: string
    var quality: string
    var mobileAtmos: bool
    var mobileHires: bool

    constructor (spatial: string, quality: string, mobileAtmos: bool, mobileHires: bool)
      ensures this.spatial == spatial && this.quality == quality
      ensures this.mobileAtmos == mobileAtmos && this.mobileHires == mobileHires
    {
      this.spatial := spatial;
      this.quality := quality;
      this.mobileAtmos := mobileAtmos;
      this.mobileHires := mobileHires;
    }

    /**
     * `tidal_set_quality_cb` for "spatial", with the wrap-around corrected to the number of
     * options; a sender who is not an admin changes nothing.
     */
    method SpatialButton(bot: BotSet, db: SettingsTable, uid: int, now: int)
      modifies this, db
      ensures uid in bot.s.admins ==>
        && spatial == SpatialNext(SpatialOptions(mobileAtmos, mobileHires), old(spatial))
        && spatial in SpatialOptions(mobileAtmos, mobileHires)
        && db.rows == Upsert(old(db.rows), "TIDAL_SPATIAL", StrV(spatial), false, None, now)
      ensures uid !in bot.s.admins ==> spatial == old(spatial) && db.rows == old(db.rows)
      ensures quality == old(quality) && mobileAtmos == old(mobileAtmos) && mobileHires == old(mobileHires)
    {
      if uid in bot.s.admins {
        var options := SpatialOptions(mobileAtmos, mobileHires);
        spatial := SpatialNext(options, spatial);
        db.SetVariable("TIDAL_SPATIAL", StrV(spatial), false, None, now);
      }
    }

    /**
     * `tidal_set_quality_cb` for a quality label; a label with no match raises IndexError and
     * changes nothing, and so does a press by a sender who is not an admin.
     */
    method QualityButton(bot: BotSet, db: SettingsTable, uid: int, text: string, now: int) returns (r: Result<()>)
      modifies this, db
      ensures r.Err? <==> uid in bot.s.admins && KeyFor(TidalQualities, text).None?
      ensures uid in bot.s.admins && r.Ok? ==>
        quality == KeyFor(TidalQualities, text).value &&
        db.rows == Upsert(old(db.rows), "TIDAL_QUALITY", StrV(quality), false, None, now)
      ensures !(uid in bot.s.admins && r.Ok?) ==> quality == old(quality) && db.rows == old(db.rows)
      ensures spatial == old(spatial) && mobileAtmos == old(mobileAtmos) && mobileHires == old(mobileHires)
    {
      r := Ok(());
      if uid in bot.s.admins {
        match KeyFor(TidalQualities, text)
        case None =>
          r := Err("IndexError");
        case Some(q) =>
          quality := q;
          db.SetVariable("TIDAL_QUALITY", StrV(q), false, None, now);
      }
    }
  }
}
