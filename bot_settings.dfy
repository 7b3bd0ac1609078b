/**
 * The global settings object of bot/settings.py: what `BotSettings.__init__` reads from
 * the `bot_settings` table at startup, the upload-mode choice of `check_upload_mode`,
 * and the base 64 "encryption" helpers.
 */
module BotSettings {
  import opened Wrappers
  import opened Dynamic
  import opened Bytes
  import Utf8
  import Base64
  import opened PgImpl

  /** `__getvalue__` on what `get_variable` returned: the value when truthy, else False. */
  function GetValue(stored: Value): (r: Value)
    ensures Truthy(stored) ==> r == stored
    ensures !Truthy(stored) ==> r == BoolV(false)
    ensures Truthy(r) <==> Truthy(stored)
  {
    OrDefault(stored, BoolV(false))
  }

  /** `__encrypt_string__`: base 64 of the UTF-8 bytes (the ASCII text of the `bytes` Python returns). */
  function Encrypt(s: string): (r: string)
    ensures Base64.Decode(r) == Some(Utf8.Encode(s))
  {
    var b := Utf8.Encode(s);
    Base64.DecodeEncode(b);
    Base64.Encode(b)
  }

  /** `__decrypt_string__`: the decoded text, or the argument itself when either decoding step fails. */
  function Decrypt(s: string): (r: string)
    ensures Base64.Decode(s).None? ==> r == s
    ensures Base64.Decode(s).Some? && Utf8.Decode(Base64.Decode(s).value).None? ==> r == s
    ensures Base64.Decode(s).Some? && Utf8.Decode(Base64.Decode(s).value).Some? ==>
      r == Utf8.Decode(Base64.Decode(s).value).value && Utf8.Encode(r) == Base64.Decode(s).value
  {
    match Base64.Decode(s)
    case None => s
    case Some(b) =>
      Utf8.EncodeDecode(b);
      match Utf8.Decode(b)
      case None => s
      case Some(t) => t
  }

  /** Decrypting what was encrypted gives the original text back, for every text. */
  lemma DecryptEncrypt(s: string)
    ensures Decrypt(Encrypt(s)) == s
  {
    Utf8.DecodeEncode(s);
  }

  /** The upload modes on offer: Local and Telegram, and RCLONE when an rclone config exists. */
  function UploadModes(rclone: bool): (r: seq<string>)
    ensures |r| == (if rclone then 3 else 2) && r[..2] == ["Local", "Telegram"]
    ensures "RCLONE" in r <==> rclone
  {
    ["Local", "Telegram"] + if rclone then ["RCLONE"] else []
  }

  /** `check_upload_mode`'s choice: RCLONE only with rclone, a stored Telegram or Local kept, Local otherwise. */
  function UploadModeFor(rclone: bool, dbUpload: Value): (r: string)
    ensures r in UploadModes(rclone)
    ensures r == "RCLONE" <==> rclone && dbUpload == StrV("RCLONE")
    ensures dbUpload == StrV("Telegram") ==> r == "Telegram"
    ensures dbUpload !in {StrV("RCLONE"), StrV("Telegram")} ==> r == "Local"
    ensures dbUpload == StrV("RCLONE") && !rclone ==> r == "Local"
  {
    if rclone && dbUpload == StrV("RCLONE") then "RCLONE"
    else if dbUpload == StrV("Telegram") || dbUpload == StrV("Local") then dbUpload.s
    else "Local"
  }

  /** The boolean options read through `__getvalue__`, each stored under its own variable name. */
  datatype Flag = BotPublic | ArtPoster | PlaylistSort | DisableSortLink | ArtistBatch | PlaylistConc
                | AlbumZip | PlaylistZip | ArtistZip

  function FlagName(f: Flag): string {
    match f
    case BotPublic => "BOT_PUBLIC"
    case ArtPoster => "ART_POSTER"
    case PlaylistSort => "PLAYLIST_SORT"
    case DisableSortLink => "PLAYLIST_LINK_DISABLE"
    case ArtistBatch => "ARTIST_BATCH_UPLOAD"
    case PlaylistConc => "PLAYLIST_CONCURRENT"
    case AlbumZip => "ALBUM_ZIP"
    case PlaylistZip => "PLAYLIST_ZIP"
    case ArtistZip => "ARTIST_ZIP"
  }

  /**
   * The fields of `bot_set` the handlers read and write. The `rclone_*` settings and
   * `video_as_document` are attributes the handlers create on first use: None until then.
   */
  datatype Settings = Settings(
    admins: seq<int>,
    authUsers: seq<int>,
    authChats: seq<int>,
    rclone: bool,
    uploadMode: string,
    antiSpam: Value,
    botLang: Value,
    linkOptions: Value,
    flags: map<Flag, Value>,
    videoAsDocument: Option<bool>,
    rcloneRemote: Option<string>,
    rcloneDestPath: Option<string>,
    rcloneDest: Option<string>,
    rcloneCopyScope: Option<string>)

  /** The value `get_variable` gives for a name; every stored row must be readable. */
  function Stored(rows: map<string, Row>, name: string): (v: Value)
    requires forall n :: n in rows ==> ReadValue(rows[n]).Ok?
    ensures name !in rows ==> v == NoneV
  {
    GetVariable(rows, name).value.0
  }

  /**
   * What `BotSettings.__init__` builds from the table, with the rclone config's presence,
   * the admins and the decoded auth lists given.
   */
  function Initial(rows: map<string, Row>, rcloneAvailable: bool, admins: seq<int>, authUsers: seq<int>, authChats: seq<int>): (r: Settings)
    requires forall n :: n in rows ==> ReadValue(rows[n]).Ok?
    ensures r.uploadMode in UploadModes(r.rclone) && r.rclone == rcloneAvailable
    ensures r.uploadMode == UploadModeFor(rcloneAvailable, Stored(rows, "UPLOAD_MODE"))
    ensures r.antiSpam == OrDefault(Stored(rows, "ANTI_SPAM"), StrV("OFF"))
    ensures r.botLang == OrDefault(Stored(rows, "BOT_LANGUAGE"), StrV("en"))
    ensures rcloneAvailable && Truthy(Stored(rows, "RCLONE_LINK_OPTIONS")) ==>
      r.linkOptions == Stored(rows, "RCLONE_LINK_OPTIONS")
    ensures !(rcloneAvailable && Truthy(Stored(rows, "RCLONE_LINK_OPTIONS"))) ==> r.linkOptions == StrV("False")
    ensures forall f :: f in r.flags && (Truthy(r.flags[f]) <==> Truthy(Stored(rows, FlagName(f))))
    ensures forall f :: f in r.flags && (Truthy(Stored(rows, FlagName(f))) ==> r.flags[f] == Stored(rows, FlagName(f)))
    ensures forall f :: f in r.flags && (!Truthy(Stored(rows, FlagName(f))) ==> r.flags[f] == BoolV(false))
    ensures r.admins == admins && r.authUsers == authUsers && r.authChats == authChats
    ensures r.videoAsDocument.None? && r.rcloneRemote.None? && r.rcloneDestPath.None?
    ensures r.rcloneDest.None? && r.rcloneCopyScope.None?
  {
    var linkOption := Stored(rows, "RCLONE_LINK_OPTIONS");
    Settings(
      admins, authUsers, authChats,
      rcloneAvailable,
      UploadModeFor(rcloneAvailable, Stored(rows, "UPLOAD_MODE")),
      OrDefault(Stored(rows, "ANTI_SPAM"), StrV("OFF")),
      OrDefault(Stored(rows, "BOT_LANGUAGE"), StrV("en")),
      if rcloneAvailable && Truthy(linkOption) then linkOption else StrV("False"),
      map f: Flag :: GetValue(Stored(rows, FlagName(f))),
      None, None, None, None, None)
  }

  /** The `bot_set` object. */
  class BotSet {
    var s: Settings

    /** Every upload mode the object can hold is one the upload button can find in its list. */
    predicate Valid()
      reads this
    {
      s.uploadMode in UploadModes(s.rclone)
    }

    constructor (rows: map<string, Row>, rcloneAvailable: bool, admins: seq<int>, authUsers: seq<int>, authChats: seq<int>)
      requires forall n :: n in rows ==> ReadValue(rows[n]).Ok?
      ensures s == Initial(rows, rcloneAvailable, admins, authUsers, authChats)
      ensures Valid()
    {
      s := Initial(rows, rcloneAvailable, admins, authUsers, authChats);
    }

    /** `check_upload_mode`: rclone is switched on (never off) by a config, then the mode is chosen. */
    method CheckUploadMode(rcloneAvailable: bool, dbUpload: Value)
      modifies this
      ensures s == old(s).(rclone := old(s).rclone || rcloneAvailable,
                           uploadMode := UploadModeFor(old(s).rclone || rcloneAvailable, dbUpload))
      ensures Valid()
    {
      var rclone := s.rclone || rcloneAvailable;
      s := s.(rclone := rclone, uploadMode := UploadModeFor(rclone, dbUpload));
    }
  }
}
