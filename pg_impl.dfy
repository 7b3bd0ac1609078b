/**
 * The settings tables of bot/helpers/database/pg_impl.py, with each SQL table held as a
 * map: `bot_settings` (one typed row per variable name), `user_settings` (one text value
 * per user and setting name) and `download_history` (appended records, with the
 * two-attempt retry of `record_download`).
 */
module PgImpl {
  import opened Wrappers
  import opened Strings
  import opened Decimal
  import opened Dynamic
  import opened Bytes

  /** The type tag `set_variable` stores: bool is tested before int, and a blob update overrides both. */
  function VType(value: Value, updateBlob: bool): (t: string)
    ensures updateBlob ==> t == "blob"
    ensures !updateBlob ==> (t == "bool" <==> value.BoolV?)
    ensures !updateBlob ==> (t == "int" <==> value.IntV?)
    ensures !updateBlob ==> (t == "str" <==> value.NoneV? || value.StrV?)
  {
    var t := if value.BoolV? then "bool" else if value.IntV? then "int" else "str";
    if updateBlob then "blob" else t
  }

  /**
   * The text the `var_value VARCHAR` column receives for a value: NULL for None, the
   * database's "true"/"false" for a bool, the decimal digits for an int.
   */
  function StoredText(value: Value): (r: Option<string>)
    ensures r.None? <==> value.NoneV?
    ensures value.StrV? ==> r == Some(value.s)
  {
    match value
    case NoneV => None
    case BoolV(b) => Some(if b then "true" else "false")
    case IntV(i) => Some(IntToString(i))
    case StrV(s) => Some(s)
  }

  /** One `bot_settings` row (its serial id left out). */
  datatype Row = Row(varValue: Option<string>, vtype: string, blob: Option<seq<Byte>>, dateChanged: int)

  /**
   * The row `set_variable` leaves: an existing row keeps its date and the column it does
   * not write; a new row is stamped `now` and has NULL in the column it does not write.
   */
  function SetRow(prev: Option<Row>, value: Value, updateBlob: bool, blobVal: Option<seq<Byte>>, now: int): (r: Row)
    ensures r.vtype == VType(value, updateBlob)
    ensures r.dateChanged == if prev.Some? then prev.value.dateChanged else now
    ensures updateBlob ==> r.blob == blobVal && r.varValue == (if prev.Some? then prev.value.varValue else None)
    ensures !updateBlob ==> r.varValue == StoredText(value) && r.blob == (if prev.Some? then prev.value.blob else None)
  {
    var vtype := VType(value, updateBlob);
    match prev
    case Some(row) =>
      if updateBlob then row.(blob := blobVal, vtype := vtype)
      else row.(varValue := StoredText(value), vtype := vtype)
    case None =>
      if updateBlob then Row(None, vtype, blobVal, now)
      else Row(StoredText(value), vtype, None, now)
  }

  /** The spellings of true that a "bool" row accepts, after `strip().lower()`. */
  predicate TrueText(s: string) {
    s == "true" || s == "1" || s == "yes" || s == "on"
  }

  /**
   * The value `get_variable` converts a row to: "int" rows through `int()` (which raises
   * on NULL or on a non-number), "str" rows through `str()`, "bool" rows by spelling, and
   * any other tag as the raw column.
   */
  function ReadValue(row: Row): (r: Result<Value>)
    ensures row.vtype == "int" ==> (r.Ok? <==> row.varValue.Some? && ParseInt(row.varValue.value).Some?)
    ensures row.vtype == "int" && r.Ok? ==> r.value == IntV(ParseInt(row.varValue.value).value)
    ensures row.vtype == "str" ==> r == Ok(StrV(if row.varValue.Some? then row.varValue.value else "None"))
    ensures row.vtype == "bool" ==> r == Ok(BoolV(TrueText(Lower(Strip(row.varValue.GetOr("None"))))))
    ensures row.vtype !in {"int", "str", "bool"} ==> r == Ok(if row.varValue.Some? then StrV(row.varValue.value) else NoneV)
  {
    if row.vtype == "int" then
      match row.varValue
      case None => Err("TypeError")
      case Some(t) =>
        match ParseInt(t)
        case None => Err("ValueError")
        case Some(n) => Ok(IntV(n))
    else if row.vtype == "str" then
      Ok(StrV(Str(if row.varValue.Some? then StrV(row.varValue.value) else NoneV)))
    else if row.vtype == "bool" then
      Ok(BoolV(TrueText(Lower(Strip(Str(if row.varValue.Some? then StrV(row.varValue.value) else NoneV))))))
    else
      Ok(if row.varValue.Some? then StrV(row.varValue.value) else NoneV)
  }

  /** `get_variable`: the converted value and the blob, or (None, None) for an unknown name. */
  function GetVariable(rows: map<string, Row>, name: string): (r: Result<(Value, Option<seq<Byte>>)>)
    ensures name !in rows ==> r == Ok((NoneV, None))
    ensures name in rows ==> (r.Ok? <==> ReadValue(rows[name]).Ok?)
    ensures name in rows && r.Ok? ==> r.value == (ReadValue(rows[name]).value, rows[name].blob)
  {
    if name !in rows then Ok((NoneV, None))
    else
      var row := rows[name];
      match ReadValue(row)
      case Err(e) => Err(e)
      case Ok(v) => Ok((v, row.blob))
  }

  function Find(rows: map<string, Row>, name: string): Option<Row> {
    if name in rows then Some(rows[name]) else None
  }

  /** The rows after `set_variable(name, value, update_blob, blob_val)` at time `now`. */
  function Upsert(rows: map<string, Row>, name: string, value: Value, updateBlob: bool, blobVal: Option<seq<Byte>>, now: int): (r: map<string, Row>)
    ensures r.Keys == rows.Keys + {name}
    ensures forall other :: other in rows && other != name ==> r[other] == rows[other]
  {
    rows[name := SetRow(Find(rows, name), value, updateBlob, blobVal, now)]
  }

  /** An int comes back as the same int. */
  lemma SetGetInt(rows: map<string, Row>, name: string, n: int, now: int)
    ensures GetVariable(Upsert(rows, name, IntV(n), false, None, now), name)
         == Ok((IntV(n), if name in rows then rows[name].blob else None))
  {
    IntRoundTrip(n);
  }

  /** A string comes back as the same string. */
  lemma SetGetStr(rows: map<string, Row>, name: string, s: string, now: int)
    ensures GetVariable(Upsert(rows, name, StrV(s), false, None, now), name)
         == Ok((StrV(s), if name in rows then rows[name].blob else None))
  {
  }

  /** A bool comes back as the same bool, read from the stored "true" or "false". */
  lemma SetGetBool(rows: map<string, Row>, name: string, b: bool, now: int)
    ensures GetVariable(Upsert(rows, name, BoolV(b), false, None, now), name)
         == Ok((BoolV(b), if name in rows then rows[name].blob else None))
  {
    BoolTextReadsBack(b);
  }

  lemma BoolTextReadsBack(b: bool)
    ensures var text := if b then "true" else "false";
      TrueText(Lower(Strip(text))) == b
  {
    if b {
      StripTrimmed("true");
      assert Lower("true") == "true";
    } else {
      StripTrimmed("false");
      assert Lower("false") == "false";
      assert |"false"| == 5;
    }
  }

  /** Storing None leaves NULL under the "str" tag, which reads back as the text "None". */
  lemma SetNoneGetsNoneText(rows: map<string, Row>, name: string, now: int)
    ensures GetVariable(Upsert(rows, name, NoneV, false, None, now), name)
         == Ok((StrV("None"), if name in rows then rows[name].blob else None))
  {
  }

  /** A blob stored under a new name reads back with no value beside it. */
  lemma BlobInsert(rows: map<string, Row>, name: string, blob: Option<seq<Byte>>, value: Value, now: int)
    requires name !in rows
    ensures GetVariable(Upsert(rows, name, value, true, blob, now), name) == Ok((NoneV, blob))
  {
  }

  /** A blob update keeps the text value, which then reads back raw. */
  lemma BlobUpdateKeepsValue(rows: map<string, Row>, name: string, blob: Option<seq<Byte>>, value: Value, now: int)
    requires name in rows
    ensures GetVariable(Upsert(rows, name, value, true, blob, now), name)
         == Ok((if rows[name].varValue.Some? then StrV(rows[name].varValue.value) else NoneV, blob))
  {
  }

  /** The `bot_settings` table: at most one row per variable name. */
  class SettingsTable {
    var rows: map<string, Row>

    constructor ()
      ensures rows == map[]
    {
      rows := map[];
    }

    /** `set_variable`: updates the row when the name is present and inserts it otherwise. */
    method SetVariable(name: string, value: Value, updateBlob: bool, blobVal: Option<seq<Byte>>, now: int)
      modifies this
      ensures rows == Upsert(old(rows), name, value, updateBlob, blobVal, now)
    {
      var existing := if name in rows then Some(rows[name]) else None;
      rows := rows[name := SetRow(existing, value, updateBlob, blobVal, now)];
    }
  }

  /** The `user_settings` table: one text value per (user, setting name). */
  class UserSettingsTable {
    var values: map<(int, string), string>

    constructor ()
      ensures values == map[]
    {
      values := map[];
    }

    /** `set_user_setting`: an upsert of `str(value)`. */
    method SetUserSetting(uid: int, name: string, value: Value)
      modifies this
      ensures values == old(values)[(uid, name) := Str(value)]
      ensures GetUserSetting(uid, name) == Some(Str(value))
    {
      values := values[(uid, name) := Str(value)];
    }

    /** `get_user_setting`: the stored text, or None. */
    function GetUserSetting(uid: int, name: string): (r: Option<string>)
      reads this
      ensures r.Some? <==> (uid, name) in values
      ensures r.Some? ==> r.value == values[(uid, name)]
    {
      if (uid, name) in values then Some(values[(uid, name)]) else None
    }
  }

  /** One `download_history` row (its id and timestamp left out). */
  datatype Download = Download(userId: int, provider: string, contentType: string, contentId: string,
                               title: string, artist: string, quality: Option<string>)

  class DownloadHistory {
    var records: seq<Download>

    constructor ()
      ensures records == []
    {
      records := [];
    }

    /**
     * `record_download`: tries the insert at most twice. `attempt(k)` is the error the
     * `k`-th try raises, or None when it succeeds. The second failure is raised again.
     */
    method RecordDownload(d: Download, attempt: nat -> Option<string>) returns (r: Result<()>, tries: nat)
      modifies this
      ensures 1 <= tries <= 2
      ensures tries == if attempt(0).None? then 1 else 2
      ensures r.Ok? <==> attempt(0).None? || attempt(1).None?
      ensures r.Err? ==> r.error == attempt(1).value
      ensures records == if r.Ok? then old(records) + [d] else old(records)
    {
      var attempts := 0;
      tries := 0;
      r := Ok(());
      while attempts < 2
        invariant 0 <= attempts <= 2 && tries == attempts
        invariant forall k :: 0 <= k < attempts ==> attempt(k).Some?
        invariant attempts == 2 ==> r == Err(attempt(1).value)
        invariant records == old(records)
        decreases 2 - attempts
      {
        tries := tries + 1;
        var failure := attempt(attempts);
        if failure.None? {
          records := records + [d];
          return Ok(()), tries;
        }
        attempts := attempts + 1;
        if attempts >= 2 {
          r := Err(failure.value);
        }
      }
    }
  }
}
