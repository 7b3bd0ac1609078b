/**
 * The progress reporter of bot/helpers/progress.py: counters for the download, zip and
 * upload phases, rendered into one status message no more often than a minimum interval.
 *
 * The clock is the parameter `now`; every edit of the chat message is recorded in `edits`,
 * whether or not the chat accepts it (a failed edit is swallowed and changes nothing else).
 */
module Progress {
  import opened Wrappers
  import opened Strings
  import opened Decimal

  const Filled: char := '\U{25B0}'
  const Empty: char := '\U{25B1}'
  const Bullet: string := " \U{2022} "
  /** The first characters of the download, zip and upload lines. */
  const DownloadMark: string := "\U{1F3B6} "
  const ZipMark: string := "\U{1F5DC}\U{FE0F} "
  const UploadMark: string := "\U{1F4E4} "

  /** `max(0, min(100, p))`. */
  function ClampPercent(p: int): (r: int)
    ensures 0 <= r <= 100
    ensures 0 <= p <= 100 ==> r == p
    ensures p < 0 ==> r == 0
    ensures p > 100 ==> r == 100
  {
    if p < 0 then 0 else if p > 100 then 100 else p
  }

  /** `max(0, n)`. */
  function AtLeastZero(n: int): (r: nat)
    ensures n >= 0 ==> r == n
    ensures n < 0 ==> r == 0
  {
    if n < 0 then 0 else n
  }

  /**
   * `_make_bar`: ten segments, the first `clamp(p) / 10` of them filled. The source computes
   * `int((p / 100) * 10)` in floating point, which equals the integer floor for 0..100.
   */
  function MakeBar(p: int): (r: string)
    ensures |r| == 10
    ensures forall i :: 0 <= i < 10 ==> (r[i] == Filled <==> i < ClampPercent(p) / 10)
    ensures forall i :: 0 <= i < 10 ==> (r[i] == Empty <==> i >= ClampPercent(p) / 10)
  {
    var f := ClampPercent(p) / 10;
    Repeat(Filled, f) + Repeat(Empty, 10 - f)
  }

  /** Out-of-range percentages draw the same bar as the nearest bound. */
  lemma MakeBarClamps(p: int)
    ensures MakeBar(p) == MakeBar(ClampPercent(p))
    ensures p <= 9 ==> forall i :: 0 <= i < 10 ==> MakeBar(p)[i] == Empty
    ensures p >= 100 ==> forall i :: 0 <= i < 10 ==> MakeBar(p)[i] == Filled
  {
  }

  /** A higher percentage never fills fewer segments. */
  lemma MakeBarMonotone(p: int, q: int, i: int)
    requires p <= q && 0 <= i < 10
    requires MakeBar(p)[i] == Filled
    ensures MakeBar(q)[i] == Filled
  {
  }

  /** The `stage_emoji` table of `_render`, with its default for unknown stages. */
  function StageEmoji(stage: string): string {
    if stage == "Preparing" then "\U{1F7E1}"
    else if stage == "Downloading" then "\U{2B07}\U{FE0F}"
    else if stage == "Processing" then "\U{1F6E0}\U{FE0F}"
    else if stage == "Zipping" then "\U{1F5DC}\U{FE0F}"
    else if stage == "Uploading" then "\U{2B06}\U{FE0F}"
    else if stage == "Finalizing" then "\U{1F9F9}"
    else if stage == "Done" then "\U{2705}"
    else "\U{1F504}"
  }

  /** `mark + body`. */
  function Marked(mark: string, body: string): (r: string)
    ensures StartsWith(r, mark) && |r| == |mark| + |body|
    ensures |body| > 0 ==> r[|r| - 1] == body[|body| - 1]
  {
    assert (mark + body)[..|mark|] == mark;
    mark + body
  }

  /** Whether some line after the header starts with `mark`. */
  predicate HasLine(lines: seq<string>, mark: string) {
    exists i :: 1 <= i < |lines| && StartsWith(lines[i], mark)
  }

  /** Whether a non-forced render at `now` is suppressed by the rate limit. */
  predicate Throttled(force: bool, last: real, now: real, minInterval: real) {
    !force && now - last < minInterval
  }

  /** The fields of a reporter that `_render` reads. */
  datatype Display = Display(
    caption: string, stage: string,
    downloadPercent: int, tracksDone: int, tracksTotal: Option<int>,
    zipDone: int, zipTotal: int,
    uploadCurrent: int, uploadTotal: int, fileIndex: Option<int>, fileTotal: Option<int>)
  {
    /** The bounds the updaters keep. */
    predicate Valid() {
      && 0 <= downloadPercent <= 100
      && tracksDone >= 0 && zipDone >= 0 && zipTotal >= 0
      && uploadCurrent >= 0 && uploadTotal >= 0
    }

    /** The condition under which `_render` shows the download line. */
    predicate DownloadShown() {
      stage == "Downloading" || stage == "Processing" || downloadPercent > 0 || tracksDone > 0
    }

    /** The condition under which the upload line carries the "(i/N)" suffix. */
    predicate IndexShown() {
      fileIndex.Some? && fileIndex.value != 0 && fileTotal.Some? && fileTotal.value != 0
    }

    function Header(): string {
      StageEmoji(stage) + " " + caption + Bullet + stage
    }

    function DownloadLine(): (r: string)
      ensures StartsWith(r, DownloadMark)
    {
      var tracks := if tracksTotal.Some? && tracksTotal.value != 0
        then IntToString(tracksDone) + "/" + IntToString(tracksTotal.value)
        else IntToString(tracksDone);
      Marked(DownloadMark, MakeBar(downloadPercent) + " " + IntToString(downloadPercent) + "%  \U{2022}  Tracks: " + tracks)
    }

    /** The zip line; the percentage is the integer floor of `100 * done / total`. */
    function ZipLine(): (r: string)
      requires zipTotal > 0 && zipDone >= 0
      ensures StartsWith(r, ZipMark)
    {
      var percent := zipDone * 100 / zipTotal;
      Marked(ZipMark, MakeBar(percent) + " " + IntToString(percent) + "%  \U{2022}  Files: " + IntToString(zipDone) + "/" + IntToString(zipTotal))
    }

    /** The upload line; the percentage is the integer floor of `100 * current / total`. */
    function UploadLine(): (r: string)
      requires uploadTotal > 0 && uploadCurrent >= 0
      ensures StartsWith(r, UploadMark)
      ensures EndsWith(r, ")") <==> IndexShown()
    {
      var percent := uploadCurrent * 100 / uploadTotal;
      var body := MakeBar(percent) + " " + IntToString(percent) + "%";
      if IndexShown() then
        var idx := " (" + IntToString(fileIndex.value) + "/" + IntToString(fileTotal.value) + ")";
        Marked(UploadMark, body + idx)
      else
        var r := Marked(UploadMark, body);
        assert r[|r| - 1] == '%';
        r
    }

    /** The lines `_render` joins: the header, then the download, zip and upload lines that apply. */
    function RenderLines(): (r: seq<string>)
      requires Valid()
      ensures |r| >= 1 && r[0] == Header()
      ensures |r| == 1 + (if DownloadShown() then 1 else 0) + (if zipTotal != 0 then 1 else 0) + (if uploadTotal != 0 then 1 else 0)
      ensures DownloadShown() <==> HasLine(r, DownloadMark)
      ensures zipTotal != 0 <==> HasLine(r, ZipMark)
      ensures uploadTotal != 0 <==> HasLine(r, UploadMark)
      ensures uploadTotal != 0 ==> (EndsWith(r[|r| - 1], ")") <==> IndexShown())
    {
      var d := if DownloadShown() then [DownloadLine()] else [];
      var z := if zipTotal != 0 then [ZipLine()] else [];
      var u := if uploadTotal != 0 then [UploadLine()] else [];
      var r := [Header()] + d + z + u;
      LinesMarked(Header(), d, z, u);
      r
    }

    /** `_render`: the lines joined by newlines. */
    function Render(): string
      requires Valid()
    {
      Join(RenderLines(), '\n')
    }
  }

  class ProgressReporter {
    /** `label`, the provider name shown in the header. */
    var caption: string
    var stage: string
    var downloadPercent: int
    var tracksDone: int
    var tracksTotal: Option<int>
    var zipDone: int
    var zipTotal: int
    var uploadCurrent: int
    var uploadTotal: int
    var fileIndex: Option<int>
    var fileTotal: Option<int>
    var lastUpdate: real
    var minInterval: real
    /** Every message edit attempted so far, oldest first. */
    var edits: seq<string>

    /** What the updaters keep true: every counter clamped as they store it. */
    ghost predicate Valid()
      reads this
    {
      && 0 <= downloadPercent <= 100
      && tracksDone >= 0 && zipDone >= 0 && zipTotal >= 0
      && uploadCurrent >= 0 && uploadTotal >= 0
      && (tracksTotal.Some? ==> tracksTotal.value >= 0)
    }

    /** The source's defaults are the "Apple Music" label and a 2-second interval. */
    constructor (caption: string, minInterval: real)
      ensures Valid()
      ensures this.caption == caption && this.minInterval == minInterval
      ensures stage == "Preparing" && downloadPercent == 0 && tracksDone == 0 && tracksTotal == None
      ensures zipDone == 0 && zipTotal == 0 && uploadCurrent == 0 && uploadTotal == 0
      ensures fileIndex == None && fileTotal == None
      ensures lastUpdate == 0.0 && edits == []
    {
      this.caption := caption;
      this.minInterval := minInterval;
      stage := "Preparing";
      downloadPercent, tracksDone, tracksTotal := 0, 0, None;
      zipDone, zipTotal := 0, 0;
      uploadCurrent, uploadTotal := 0, 0;
      fileIndex, fileTotal := None, None;
      lastUpdate := 0.0;
      edits := [];
    }

    /** The fields `_render` reads. */
    function View(): (v: Display)
      reads this
      requires Valid()
      ensures v.Valid()
    {
      Display(caption, stage, downloadPercent, tracksDone, tracksTotal, zipDone, zipTotal,
              uploadCurrent, uploadTotal, fileIndex, fileTotal)
    }

    /** `_render`. */
    function Render(): string
      reads this
      requires Valid()
    {
      View().Render()
    }

    /**
     * `_maybe_update`: unless forced, nothing happens within `minInterval` of the last render;
     * otherwise the clock is stored and exactly one edit with the rendered text is attempted.
     */
    method MaybeUpdate(force: bool, now: real)
      requires Valid()
      modifies this
      ensures Valid()
      ensures Throttled(force, old(lastUpdate), now, minInterval) ==> lastUpdate == old(lastUpdate) && edits == old(edits)
      ensures !Throttled(force, old(lastUpdate), now, minInterval) ==> lastUpdate == now && edits == old(edits) + [Render()]
      ensures caption == old(caption) && stage == old(stage) && minInterval == old(minInterval)
      ensures downloadPercent == old(downloadPercent) && tracksDone == old(tracksDone) && tracksTotal == old(tracksTotal)
      ensures zipDone == old(zipDone) && zipTotal == old(zipTotal)
      ensures uploadCurrent == old(uploadCurrent) && uploadTotal == old(uploadTotal)
      ensures fileIndex == old(fileIndex) && fileTotal == old(fileTotal)
    {
      if !force && now - lastUpdate < minInterval {
        return;
      }
      lastUpdate := now;
      edits := edits + [Render()];
    }

    /** `should_update`. */
    predicate ShouldUpdate(now: real)
      reads this
    {
      !Throttled(false, lastUpdate, now, minInterval)
    }

    /** `set_stage`: always renders, whatever the elapsed time. */
    method SetStage(stage: string, now: real)
      requires Valid()
      modifies this
      ensures Valid()
      ensures this.stage == stage && lastUpdate == now && edits == old(edits) + [Render()]
      ensures caption == old(caption) && minInterval == old(minInterval)
      ensures downloadPercent == old(downloadPercent) && tracksDone == old(tracksDone) && tracksTotal == old(tracksTotal)
      ensures zipDone == old(zipDone) && zipTotal == old(zipTotal)
      ensures uploadCurrent == old(uploadCurrent) && uploadTotal == old(uploadTotal)
      ensures fileIndex == old(fileIndex) && fileTotal == old(fileTotal)
    {
      this.stage := stage;
      MaybeUpdate(true, now);
    }

    /** `set_total_tracks`: a None or negative total is ignored. */
    method SetTotalTracks(total: Option<int>, now: real)
      requires Valid()
      modifies this
      ensures Valid()
      ensures tracksTotal == if total.Some? && total.value >= 0 then total else old(tracksTotal)
      ensures Throttled(false, old(lastUpdate), now, minInterval) ==> lastUpdate == old(lastUpdate) && edits == old(edits)
      ensures !Throttled(false, old(lastUpdate), now, minInterval) ==> lastUpdate == now && edits == old(edits) + [Render()]
      ensures caption == old(caption) && stage == old(stage) && minInterval == old(minInterval)
      ensures downloadPercent == old(downloadPercent) && tracksDone == old(tracksDone)
      ensures zipDone == old(zipDone) && zipTotal == old(zipTotal)
      ensures uploadCurrent == old(uploadCurrent) && uploadTotal == old(uploadTotal)
      ensures fileIndex == old(fileIndex) && fileTotal == old(fileTotal)
    {
      if total.Some? && total.value >= 0 {
        tracksTotal := total;
      }
      MaybeUpdate(false, now);
    }

    /** `update_download`: the percent clamped to [0,100], the track count to at least 0; None leaves a field alone. */
    method UpdateDownload(percent: Option<int>, done: Option<int>, now: real)
      requires Valid()
      modifies this
      ensures Valid()
      ensures downloadPercent == if percent.Some? then ClampPercent(percent.value) else old(downloadPercent)
      ensures tracksDone == if done.Some? then AtLeastZero(done.value) else old(tracksDone)
      ensures Throttled(false, old(lastUpdate), now, minInterval) ==> lastUpdate == old(lastUpdate) && edits == old(edits)
      ensures !Throttled(false, old(lastUpdate), now, minInterval) ==> lastUpdate == now && edits == old(edits) + [Render()]
      ensures caption == old(caption) && stage == old(stage) && minInterval == old(minInterval) && tracksTotal == old(tracksTotal)
      ensures zipDone == old(zipDone) && zipTotal == old(zipTotal)
      ensures uploadCurrent == old(uploadCurrent) && uploadTotal == old(uploadTotal)
      ensures fileIndex == old(fileIndex) && fileTotal == old(fileTotal)
    {
      if percent.Some? {
        downloadPercent := ClampPercent(percent.value);
      }
      if done.Some? {
        tracksDone := AtLeastZero(done.value);
      }
      MaybeUpdate(false, now);
    }

    /** `update_zip`: both counters clamped to at least 0; `done` may exceed `total`. */
    method UpdateZip(done: int, total: int, now: real)
      requires Valid()
      modifies this
      ensures Valid()
      ensures zipDone == AtLeastZero(done) && zipTotal == AtLeastZero(total)
      ensures Throttled(false, old(lastUpdate), now, minInterval) ==> lastUpdate == old(lastUpdate) && edits == old(edits)
      ensures !Throttled(false, old(lastUpdate), now, minInterval) ==> lastUpdate == now && edits == old(edits) + [Render()]
      ensures caption == old(caption) && stage == old(stage) && minInterval == old(minInterval)
      ensures downloadPercent == old(downloadPercent) && tracksDone == old(tracksDone) && tracksTotal == old(tracksTotal)
      ensures uploadCurrent == old(uploadCurrent) && uploadTotal == old(uploadTotal)
      ensures fileIndex == old(fileIndex) && fileTotal == old(fileTotal)
    {
      zipDone := AtLeastZero(done);
      zipTotal := AtLeastZero(total);
      MaybeUpdate(false, now);
    }

    /**
     * `update_upload`: both counters clamped to at least 0; the file index and total change only
     * when given, and the stage only when a non-empty label is given.
     */
    method UpdateUpload(current: int, total: int, index: Option<int>, count: Option<int>, newStage: Option<string>, now: real)
      requires Valid()
      modifies this
      ensures Valid()
      ensures uploadCurrent == AtLeastZero(current) && uploadTotal == AtLeastZero(total)
      ensures fileIndex == if index.Some? then index else old(fileIndex)
      ensures fileTotal == if count.Some? then count else old(fileTotal)
      ensures stage == if newStage.Some? && newStage.value != "" then newStage.value else old(stage)
      ensures Throttled(false, old(lastUpdate), now, minInterval) ==> lastUpdate == old(lastUpdate) && edits == old(edits)
      ensures !Throttled(false, old(lastUpdate), now, minInterval) ==> lastUpdate == now && edits == old(edits) + [Render()]
      ensures caption == old(caption) && minInterval == old(minInterval)
      ensures downloadPercent == old(downloadPercent) && tracksDone == old(tracksDone) && tracksTotal == old(tracksTotal)
      ensures zipDone == old(zipDone) && zipTotal == old(zipTotal)
    {
      uploadCurrent := AtLeastZero(current);
      uploadTotal := AtLeastZero(total);
      if index.Some? {
        fileIndex := index;
      }
      if count.Some? {
        fileTotal := count;
      }
      if newStage.Some? && newStage.value != "" {
        stage := newStage.value;
      }
      MaybeUpdate(false, now);
    }
  }

  /** The lines built from a header and the optional sections start with their marks, and only those. */
  lemma LinesMarked(h: string, d: seq<string>, z: seq<string>, u: seq<string>)
    requires |d| <= 1 && |z| <= 1 && |u| <= 1
    requires |d| == 1 ==> StartsWith(d[0], DownloadMark)
    requires |z| == 1 ==> StartsWith(z[0], ZipMark)
    requires |u| == 1 ==> StartsWith(u[0], UploadMark)
    ensures var r := [h] + d + z + u;
      && (|d| == 1 <==> HasLine(r, DownloadMark))
      && (|z| == 1 <==> HasLine(r, ZipMark))
      && (|u| == 1 <==> HasLine(r, UploadMark))
      && (|u| == 1 ==> r[|r| - 1] == u[0])
  {
    var r := [h] + d + z + u;
    forall i | 1 <= i < |r|
      ensures (StartsWith(r[i], DownloadMark) ==> |d| == 1)
      ensures (StartsWith(r[i], ZipMark) ==> |z| == 1)
      ensures (StartsWith(r[i], UploadMark) ==> |u| == 1)
    {
      if |d| == 1 && i == 1 {
        assert r[i] == d[0];
        assert r[i][0] == DownloadMark[0];
      } else if |z| == 1 && i == 1 + |d| {
        assert r[i] == z[0];
        assert r[i][0] == ZipMark[0];
      } else {
        assert |u| == 1 && i == 1 + |d| + |z|;
        assert r[i] == u[0];
        assert r[i][0] == UploadMark[0];
      }
    }
    if |d| == 1 { assert r[1] == d[0]; }
    if |z| == 1 { assert r[1 + |d|] == z[0]; }
    if |u| == 1 { assert r[1 + |d| + |z|] == u[0]; }
  }
}
