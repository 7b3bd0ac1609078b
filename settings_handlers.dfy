/**
 * The admin handlers of bot/modules/settings.py that change `bot_set` and the settings
 * table: the upload-mode and link-option buttons, the boolean toggles, the rclone
 * remote, destination and copy-scope settings, the rclone.conf import, and /auth and /ban.
 * Every handler first asks `check_user(uid, restricted=True)`, which holds exactly when
 * `uid` is an admin (see `Message.CheckUser`); a refused sender changes nothing.
 */
module SettingsHandlers {
  import opened Wrappers
  import opened Dynamic
  import opened Strings
  import opened Decimal
  import opened Assoc
  import opened Cycle
  import Message
  import opened BotSettings
  import opened PgImpl

  // ---------------------------------------------------------------------------
  // Upload mode

  /** The upload mode after one press of the upload button; None where `modes.index` raises. */
  function NextUploadMode(rclone: bool, mode: string): (r: Option<string>)
    ensures r.Some? <==> mode in UploadModes(rclone)
    ensures r.Some? ==> r.value in UploadModes(rclone)
  {
    Next(UploadModes(rclone), mode)
  }

  lemma UploadModesDistinct(rclone: bool)
    ensures Distinct(UploadModes(rclone))
  {
    var m := UploadModes(rclone);
    assert m[0] == "Local" && m[1] == "Telegram";
    assert m[0] != m[1] by { assert |m[0]| != |m[1]|; }
    if rclone {
      assert m[2] == "RCLONE";
      assert m[0] != m[2] && m[1] != m[2] by { assert |m[0]| != |m[2]| && |m[1]| != |m[2]|; }
    }
  }

  /** The order of the cycle: Local, Telegram, then RCLONE when rclone is set, then back to Local. */
  lemma UploadOrder(rclone: bool)
    ensures NextUploadMode(rclone, "Local") == Some("Telegram")
    ensures NextUploadMode(rclone, "Telegram") == Some(if rclone then "RCLONE" else "Local")
    ensures rclone ==> NextUploadMode(rclone, "RCLONE") == Some("Local")
  {
    var m := UploadModes(rclone);
    UploadModesDistinct(rclone);
    assert m[0] == "Local" && m[1] == "Telegram";
    IndexOfDistinct(m, 0);
    IndexOfDistinct(m, 1);
    if rclone {
      assert m[2] == "RCLONE";
      IndexOfDistinct(m, 2);
    }
  }

  /** As many presses as there are modes bring the upload mode back to where it was. */
  lemma UploadCycle(rclone: bool, mode: string)
    requires mode in UploadModes(rclone)
    ensures Presses(UploadModes(rclone), mode, |UploadModes(rclone)|) == Some(mode)
  {
    UploadModesDistinct(rclone);
    FullCircle(UploadModes(rclone), mode);
  }

  /** The mode chosen at startup is always one the upload button can find. */
  lemma StartupModeCycles(rclone: bool, dbUpload: Value)
    ensures NextUploadMode(rclone, UploadModeFor(rclone, dbUpload)).Some?
  {
  }

  /** The upload button (`upload_mode_cb`). */
  method UploadButton(bot: BotSet, db: SettingsTable, uid: int, now: int) returns (r: Result<()>)
    modifies bot, db
    ensures uid in old(bot.s.admins) && old(bot.s.uploadMode) in UploadModes(old(bot.s.rclone)) ==>
      var next := NextUploadMode(old(bot.s.rclone), old(bot.s.uploadMode)).value;
      && bot.s == old(bot.s).(uploadMode := next)
      && db.rows == Upsert(old(db.rows), "UPLOAD_MODE", StrV(next), false, None, now)
    ensures !(uid in old(bot.s.admins) && old(bot.s.uploadMode) in UploadModes(old(bot.s.rclone))) ==>
      bot.s == old(bot.s) && db.rows == old(db.rows)
    ensures r.Err? <==> uid in old(bot.s.admins) && old(bot.s.uploadMode) !in UploadModes(old(bot.s.rclone))
    ensures old(bot.Valid()) ==> bot.Valid() && r.Ok?
  {
    r := Ok(());
    if uid in bot.s.admins {
      match NextUploadMode(bot.s.rclone, bot.s.uploadMode)
      case None =>
        r := Err("ValueError");
      case Some(next) =>
        bot.s := bot.s.(uploadMode := next);
        db.SetVariable("UPLOAD_MODE", StrV(next), false, None, now);
    }
  }

  // ---------------------------------------------------------------------------
  // Link options

  const LinkOptions: seq<Value> := [StrV("False"), StrV("Index"), StrV("RCLONE"), StrV("Both")]

  /** The link option after one press; None where `options.index` raises. */
  function NextLinkOption(current: Value): (r: Option<Value>)
    ensures r.Some? <==> current in LinkOptions
    ensures r.Some? ==> r.value in LinkOptions
  {
    Next(LinkOptions, current)
  }

  lemma LinkOptionsDistinct()
    ensures Distinct(LinkOptions)
  {
    var o := LinkOptions;
    assert |o[0].s| == 5 && |o[1].s| == 5 && |o[2].s| == 6 && |o[3].s| == 4;
    assert o[0].s[0] == 'F' && o[1].s[0] == 'I';
  }

  /** The order of the cycle: False, Index, RCLONE, Both, then False again. */
  lemma LinkOrder()
    ensures NextLinkOption(StrV("False")) == Some(StrV("Index"))
    ensures NextLinkOption(StrV("Index")) == Some(StrV("RCLONE"))
    ensures NextLinkOption(StrV("RCLONE")) == Some(StrV("Both"))
    ensures NextLinkOption(StrV("Both")) == Some(StrV("False"))
  {
    LinkOptionsDistinct();
    IndexOfDistinct(LinkOptions, 0);
    IndexOfDistinct(LinkOptions, 1);
    IndexOfDistinct(LinkOptions, 2);
    IndexOfDistinct(LinkOptions, 3);
  }

  /** Four presses bring the link option back to where it was. */
  lemma LinkCycle(current: Value)
    requires current in LinkOptions
    ensures Presses(LinkOptions, current, 4) == Some(current)
  {
    LinkOptionsDistinct();
    FullCircle(LinkOptions, current);
  }

  /** The link-option button (`link_option_cb`). */
  method LinkOptionButton(bot: BotSet, db: SettingsTable, uid: int, now: int) returns (r: Result<()>)
    modifies bot, db
    ensures uid in old(bot.s.admins) && old(bot.s.linkOptions) in LinkOptions ==>
      var next := NextLinkOption(old(bot.s.linkOptions)).value;
      && bot.s == old(bot.s).(linkOptions := next)
      && db.rows == Upsert(old(db.rows), "RCLONE_LINK_OPTIONS", next, false, None, now)
    ensures !(uid in old(bot.s.admins) && old(bot.s.linkOptions) in LinkOptions) ==>
      bot.s == old(bot.s) && db.rows == old(db.rows)
    ensures r.Err? <==> uid in old(bot.s.admins) && old(bot.s.linkOptions) !in LinkOptions
  {
    r := Ok(());
    if uid in bot.s.admins {
      match NextLinkOption(bot.s.linkOptions)
      case None =>
        r := Err("ValueError");
      case Some(next) =>
        bot.s := bot.s.(linkOptions := next);
        db.SetVariable("RCLONE_LINK_OPTIONS", next, false, None, now);
    }
  }

  // ---------------------------------------------------------------------------
  // Boolean toggles

  /** `False if v else True`. */
  function Flip(v: Value): (r: Value)
    ensures r.BoolV? && (Truthy(r) <==> !Truthy(v))
  {
    BoolV(!Truthy(v))
  }

  /** Two presses restore the truth value, and restore the value itself once it is a bool. */
  lemma FlipTwice(v: Value)
    ensures Flip(Flip(v)) == BoolV(Truthy(v))
    ensures v.BoolV? ==> Flip(Flip(v)) == v
  {
  }

  /** A toggle button (`alb_art_cb`, `playlist_conc_cb`, ..., `album_zip_cb`) for the option `f`. */
  method ToggleButton(bot: BotSet, db: SettingsTable, uid: int, f: Flag, now: int)
    requires f in bot.s.flags
    modifies bot, db
    ensures uid in old(bot.s.admins) ==>
      var v := Flip(old(bot.s.flags[f]));
      && bot.s == old(bot.s).(flags := old(bot.s.flags)[f := v])
      && db.rows == Upsert(old(db.rows), FlagName(f), v, false, None, now)
    ensures uid !in old(bot.s.admins) ==> bot.s == old(bot.s) && db.rows == old(db.rows)
  {
    if uid in bot.s.admins {
      var v := Flip(bot.s.flags[f]);
      bot.s := bot.s.(flags := bot.s.flags[f := v]);
      db.SetVariable(FlagName(f), v, false, None, now);
    }
  }

  /** The video upload-type button (`video_upload_type_cb`): an absent attribute counts as False. */
  method VideoTypeButton(bot: BotSet, db: SettingsTable, uid: int, now: int)
    modifies bot, db
    ensures uid in old(bot.s.admins) ==>
      var v := !old(bot.s.videoAsDocument).GetOr(false);
      && bot.s == old(bot.s).(videoAsDocument := Some(v))
      && db.rows == Upsert(old(db.rows), "VIDEO_AS_DOCUMENT", BoolV(v), false, None, now)
    ensures uid !in old(bot.s.admins) ==> bot.s == old(bot.s) && db.rows == old(db.rows)
  {
    if uid in bot.s.admins {
      var v := !bot.s.videoAsDocument.GetOr(false);
      bot.s := bot.s.(videoAsDocument := Some(v));
      db.SetVariable("VIDEO_AS_DOCUMENT", BoolV(v), false, None, now);
    }
  }

  // ---------------------------------------------------------------------------
  // rclone copy scope, remote and destination

  /** The copy scope after one press: FOLDER from FILE (the default, any case), FILE from anything else. */
  function NextScope(current: Option<string>): (r: string)
    ensures r == "FOLDER" <==> Upper(current.GetOr("FILE")) == "FILE"
    ensures r == "FILE" <==> Upper(current.GetOr("FILE")) != "FILE"
  {
    if Upper(current.GetOr("FILE")) == "FILE" then "FOLDER" else "FILE"
  }

  /** The scope alternates: the unset default goes to FOLDER, FOLDER to FILE and FILE to FOLDER. */
  lemma ScopeAlternates()
    ensures NextScope(None) == "FOLDER"
    ensures NextScope(Some("FOLDER")) == "FILE"
    ensures NextScope(Some("FILE")) == "FOLDER"
  {
    assert Upper("FILE") == "FILE";
    assert |Upper("FOLDER")| != |"FILE"|;
  }

  /** The scope button (`rclone_scope_cb`). */
  method ScopeButton(bot: BotSet, db: SettingsTable, uid: int, now: int)
    modifies bot, db
    ensures uid in old(bot.s.admins) ==>
      var next := NextScope(old(bot.s.rcloneCopyScope));
      && bot.s == old(bot.s).(rcloneCopyScope := Some(next))
      && db.rows == Upsert(old(db.rows), "RCLONE_COPY_SCOPE", StrV(next), false, None, now)
    ensures uid !in old(bot.s.admins) ==> bot.s == old(bot.s) && db.rows == old(db.rows)
  {
    if uid in bot.s.admins {
      var next := NextScope(bot.s.rcloneCopyScope);
      bot.s := bot.s.(rcloneCopyScope := Some(next));
      db.SetVariable("RCLONE_COPY_SCOPE", StrV(next), false, None, now);
    }
  }

  /** The remote named by "rcloneApplyRemote|<remote>": the text after the first '|'. */
  function RemoteOf(data: string): (r: Option<string>)
    ensures '|' !in data ==> r.None?
    ensures '|' in data ==> r.Some? && exists before :: '|' !in before && data == before + "|" + r.value
  {
    SplitOnce(data, '|').1
  }

  /** The destination after choosing a remote: "remote:suffix" (plain "remote:" for no suffix), or "" for an empty remote. */
  function DestForRemote(remote: string, suffix: string): (r: string)
    ensures remote != "" ==> r == remote + ":" + suffix
    ensures remote == "" ==> r == ""
  {
    if remote != "" then
      if suffix != "" then remote + ":" + suffix else remote + ":"
    else ""
  }

  /** The destination after sending a path: "remote:text" (plain "remote:" for no text), or the bare text with no remote. */
  function DestForPath(remote: string, text: string): (r: string)
    ensures remote != "" ==> r == remote + ":" + text
    ensures remote == "" ==> r == text
  {
    if remote != "" then
      if text != "" then remote + ":" + text else remote + ":"
    else text
  }

  /** The two ways of setting the destination agree once a remote is chosen, and differ without one. */
  lemma DestinationsAgree(remote: string, path: string)
    ensures remote != "" ==> DestForRemote(remote, path) == DestForPath(remote, path)
    ensures remote == "" && path != "" ==> DestForRemote(remote, path) != DestForPath(remote, path)
  {
  }

  /** `rclone_apply_remote_cb`: a callback without '|' is reported as a failure and changes nothing. */
  method ApplyRemoteButton(bot: BotSet, db: SettingsTable, uid: int, data: string, now: int) returns (r: Result<()>)
    modifies bot, db
    ensures uid in old(bot.s.admins) && RemoteOf(data).Some? ==>
      var remote := RemoteOf(data).value;
      var dest := DestForRemote(remote, old(bot.s.rcloneDestPath).GetOr(""));
      && r.Ok?
      && bot.s == old(bot.s).(rcloneRemote := Some(remote), rcloneDest := Some(dest))
      && db.rows == Upsert(Upsert(old(db.rows), "RCLONE_REMOTE", StrV(remote), false, None, now),
                           "RCLONE_DEST", StrV(dest), false, None, now)
    ensures !(uid in old(bot.s.admins) && RemoteOf(data).Some?) ==> bot.s == old(bot.s) && db.rows == old(db.rows)
    ensures r.Err? <==> uid in old(bot.s.admins) && RemoteOf(data).None?
  {
    r := Ok(());
    if uid in bot.s.admins {
      match RemoteOf(data)
      case None =>
        r := Err("Failed to set remote");
      case Some(remote) =>
        var suffix := bot.s.rcloneDestPath.GetOr("");
        var dest := DestForRemote(remote, suffix);
        bot.s := bot.s.(rcloneRemote := Some(remote), rcloneDest := Some(dest));
        db.SetVariable("RCLONE_REMOTE", StrV(remote), false, None, now);
        db.SetVariable("RCLONE_DEST", StrV(dest), false, None, now);
    }
  }

  /** An uploaded document is taken for rclone.conf when its lower-cased name contains "rclone" or ends in ".conf". */
  predicate AcceptConfName(fileName: Option<string>) {
    var name := Lower(fileName.GetOr(""));
    ContainsSub(name, "rclone") || EndsWith(name, ".conf")
  }

  lemma LowerTwice(s: string)
    ensures Lower(Lower(s)) == Lower(s)
  {
  }

  /** The rule ignores case: a name is accepted exactly when its lower-case spelling is. */
  lemma AcceptIgnoresCase(name: string)
    ensures AcceptConfName(Some(name)) <==> AcceptConfName(Some(Lower(name)))
  {
    LowerTwice(name);
  }

  /** The users a button has asked for a document or a text: `_import_waiting` and `_dest_path_waiting`. */
  class RcloneWaits {
    var importWaiting: set<int>
    var destPathWaiting: set<int>

    constructor ()
      ensures importWaiting == {} && destPathWaiting == {}
    {
      importWaiting := {};
      destPathWaiting := {};
    }

    /** Only admins are ever waited for, since only the admin-checked buttons add to the sets. */
    predicate OnlyAdmins(admins: seq<int>)
      reads this
    {
      (forall u :: u in importWaiting ==> u in admins) && (forall u :: u in destPathWaiting ==> u in admins)
    }
  }

  /** `rclone_import_cb`: the admin's next document is awaited. */
  method ImportButton(w: RcloneWaits, bot: BotSet, uid: int)
    modifies w
    ensures w.importWaiting == if uid in bot.s.admins then old(w.importWaiting) + {uid} else old(w.importWaiting)
    ensures w.destPathWaiting == old(w.destPathWaiting)
    ensures old(w.OnlyAdmins(bot.s.admins)) ==> w.OnlyAdmins(bot.s.admins)
  {
    if uid in bot.s.admins {
      w.importWaiting := w.importWaiting + {uid};
    }
  }

  /**
   * `handle_rclone_conf_upload`: a document from an awaited sender with an acceptable
   * name is installed. `saved` is whether downloading and moving the file succeeded;
   * after a failure the sender is still awaited.
   */
  method ConfUpload(w: RcloneWaits, uid: Option<int>, hasDocument: bool, fileName: Option<string>, saved: bool)
    returns (accepted: bool)
    modifies w
    ensures accepted <==> uid.Some? && uid.value in old(w.importWaiting) && hasDocument && AcceptConfName(fileName) && saved
    ensures w.importWaiting == if accepted then old(w.importWaiting) - {uid.value} else old(w.importWaiting)
    ensures w.destPathWaiting == old(w.destPathWaiting)
  {
    accepted := false;
    if uid.None? || uid.value !in w.importWaiting || !hasDocument || !AcceptConfName(fileName) {
      return;
    }
    if saved {
      w.importWaiting := w.importWaiting - {uid.value};
      accepted := true;
    }
  }

  /** `rclone_set_dest_path_cb`: the admin's next text is awaited as the destination path. */
  method DestPathButton(w: RcloneWaits, bot: BotSet, uid: int)
    modifies w
    ensures w.destPathWaiting == if uid in bot.s.admins then old(w.destPathWaiting) + {uid} else old(w.destPathWaiting)
    ensures w.importWaiting == old(w.importWaiting)
    ensures old(w.OnlyAdmins(bot.s.admins)) ==> w.OnlyAdmins(bot.s.admins)
  {
    if uid in bot.s.admins {
      w.destPathWaiting := w.destPathWaiting + {uid};
    }
  }

  /** `handle_dest_path_text`: an awaited sender's stripped text becomes the destination path. */
  method DestPathText(w: RcloneWaits, bot: BotSet, db: SettingsTable, uid: Option<int>, text: Option<string>, now: int)
    modifies w, bot, db
    ensures uid.Some? && uid.value in old(w.destPathWaiting) ==>
      var path := Strip(text.GetOr(""));
      var dest := DestForPath(old(bot.s.rcloneRemote).GetOr(""), path);
      && bot.s == old(bot.s).(rcloneDestPath := Some(path), rcloneDest := Some(dest))
      && db.rows == Upsert(Upsert(old(db.rows), "RCLONE_DEST_PATH", StrV(path), false, None, now),
                           "RCLONE_DEST", StrV(dest), false, None, now)
      && w.destPathWaiting == old(w.destPathWaiting) - {uid.value}
    ensures !(uid.Some? && uid.value in old(w.destPathWaiting)) ==>
      bot.s == old(bot.s) && db.rows == old(db.rows) && w.destPathWaiting == old(w.destPathWaiting)
    ensures w.importWaiting == old(w.importWaiting)
    ensures old(w.OnlyAdmins(bot.s.admins)) ==> w.OnlyAdmins(bot.s.admins)
  {
    if uid.None? || uid.value !in w.destPathWaiting {
      return;
    }
    var path := Strip(text.GetOr(""));
    var dest := DestForPath(bot.s.rcloneRemote.GetOr(""), path);
    bot.s := bot.s.(rcloneDestPath := Some(path), rcloneDest := Some(dest));
    db.SetVariable("RCLONE_DEST_PATH", StrV(path), false, None, now);
    db.SetVariable("RCLONE_DEST", StrV(dest), false, None, now);
    w.destPathWaiting := w.destPathWaiting - {uid.value};
  }

  // ---------------------------------------------------------------------------
  // /auth and /ban

  /** The id in "/auth <id>" or "/ban <id>": `int()` of the text after the first space. */
  function IdOf(text: string): (r: Option<int>)
    ensures ' ' !in text ==> r.None?
    ensures r.Some? ==> exists rest :: ParseInt(rest) == r && SplitOnce(text, ' ').1 == Some(rest)
  {
    match SplitOnce(text, ' ').1
    case None => None
    case Some(rest) => ParseInt(rest)
  }

  /** Ids whose decimal text starts with "-100" are chats; every other id is a user. */
  predicate IsChatId(id: int) {
    StartsWith(IntToString(id), "-100")
  }

  /** Every chat id is negative. */
  lemma ChatIdNegative(id: int)
    ensures IsChatId(id) ==> id < 0
  {
    if id >= 0 {
      FirstIsDigit(id);
    }
  }

  lemma {:induction false} FirstIsDigit(n: nat)
    ensures IsDigit(NatToString(n)[0])
    decreases n
  {
    if n >= 10 {
      FirstIsDigit(n / 10);
      assert NatToString(n)[0] == NatToString(n / 10)[0];
    }
  }

  /** Python's `str(list)` for a list of ints: "[1, 2, 3]". */
  function ListText(s: seq<int>): (r: string)
    ensures |r| >= 2 && r[0] == '[' && r[|r| - 1] == ']'
  {
    "[" + ItemsText(s) + "]"
  }

  function ItemsText(s: seq<int>): string {
    if |s| == 0 then ""
    else if |s| == 1 then IntToString(s[0])
    else IntToString(s[0]) + ", " + ItemsText(s[1..])
  }

  /** The list after authorising `id`: appended only when absent, so no id is ever listed twice. */
  function Authorised(list: seq<int>, id: int): (r: seq<int>)
    ensures id in r
    ensures id in list ==> r == list
    ensures id !in list ==> r == list + [id]
    ensures Message.NoDuplicates(list) ==> Message.NoDuplicates(r)
  {
    if id in list then list
    else
      assert forall i :: 0 <= i < |list| ==> (list + [id])[i] == list[i];
      list + [id]
  }

  /** Banning an id that was just authorised gives the earlier list back. */
  lemma AuthThenBan(list: seq<int>, id: int)
    requires id !in list
    ensures Message.RemoveFirst(Authorised(list, id), id) == list
  {
    Message.AcquireThenRevoke(list, id);
  }

  /** In a list without repeats a ban removes the id completely. */
  lemma BanRemoves(list: seq<int>, id: int)
    requires Message.NoDuplicates(list)
    ensures id !in Message.RemoveFirst(list, id) && Message.NoDuplicates(Message.RemoveFirst(list, id))
  {
    Message.RemoveFirstNoDuplicates(list, id);
  }

  /** The replies /auth and /ban send, in order. */
  datatype Reply = BanAuthFormat | UserExist | AuthId | UserDoesNotExist | BanId

  /** The list a command works on: the chats list for chat ids, the users list otherwise. */
  function ListFor(s: Settings, chats: bool): seq<int> {
    if chats then s.authChats else s.authUsers
  }

  /** The settings with the chats or users list replaced. */
  function WithList(s: Settings, chats: bool, list: seq<int>): (r: Settings)
    ensures ListFor(r, chats) == list
    ensures r.(authChats := s.authChats, authUsers := s.authUsers) == s
  {
    if chats then s.(authChats := list) else s.(authUsers := list)
  }

  function ListName(chats: bool): string {
    if chats then "AUTH_CHATS" else "AUTH_USERS"
  }

  /** The table after a list changed to `list`, or unchanged when the list did not change. */
  function SavedList(rows: map<string, Row>, chats: bool, changed: bool, list: seq<int>, now: int): map<string, Row> {
    if changed then Upsert(rows, ListName(chats), StrV(ListText(list)), false, None, now) else rows
  }

  /** The part of `auth` after the id is known: append the id unless it is listed, and save the list. */
  method AddId(bot: BotSet, db: SettingsTable, id: int, chats: bool, now: int) returns (replies: seq<Reply>)
    modifies bot, db
    ensures var list := ListFor(old(bot.s), chats);
      && bot.s == WithList(old(bot.s), chats, Authorised(list, id))
      && db.rows == SavedList(old(db.rows), chats, id !in list, Authorised(list, id), now)
      && replies == (if id in list then [UserExist] else [])
  {
    var list := ListFor(bot.s, chats);
    replies := [];
    if id !in list {
      var updated := list + [id];
      bot.s := WithList(bot.s, chats, updated);
      db.SetVariable(ListName(chats), StrV(ListText(updated)), false, None, now);
    } else {
      replies := [UserExist];
    }
  }

  /** The part of `ban` after the id is known: remove the id when it is listed, and save the list. */
  method RemoveId(bot: BotSet, db: SettingsTable, id: int, chats: bool, now: int) returns (replies: seq<Reply>)
    modifies bot, db
    ensures var list := ListFor(old(bot.s), chats);
      && bot.s == WithList(old(bot.s), chats, Message.RemoveFirst(list, id))
      && db.rows == SavedList(old(db.rows), chats, id in list, Message.RemoveFirst(list, id), now)
      && replies == (if id in list then [] else [UserDoesNotExist])
  {
    var list := ListFor(bot.s, chats);
    replies := [];
    if id in list {
      var updated := Message.RemoveFirst(list, id);
      bot.s := WithList(bot.s, chats, updated);
      db.SetVariable(ListName(chats), StrV(ListText(updated)), false, None, now);
    } else {
      replies := [UserDoesNotExist];
    }
  }

  /** `auth`: adds the id to the chats or users list unless it is listed already. */
  method AuthCommand(bot: BotSet, db: SettingsTable, uid: int, text: string, now: int) returns (replies: seq<Reply>)
    modifies bot, db
    ensures uid !in old(bot.s.admins) ==> replies == [] && bot.s == old(bot.s) && db.rows == old(db.rows)
    ensures uid in old(bot.s.admins) && IdOf(text).None? ==>
      replies == [BanAuthFormat] && bot.s == old(bot.s) && db.rows == old(db.rows)
    ensures uid in old(bot.s.admins) && IdOf(text).Some? ==>
      var id := IdOf(text).value;
      var chats := IsChatId(id);
      var list := ListFor(old(bot.s), chats);
      && bot.s == WithList(old(bot.s), chats, Authorised(list, id))
      && db.rows == SavedList(old(db.rows), chats, id !in list, Authorised(list, id), now)
      && replies == (if id in list then [UserExist, AuthId] else [AuthId])
  {
    replies := [];
    if uid !in bot.s.admins {
      return;
    }
    match IdOf(text)
    case None =>
      replies := [BanAuthFormat];
    case Some(id) =>
      replies := AddId(bot, db, id, IsChatId(id), now);
      replies := replies + [AuthId];
  }

  /** `ban`: removes the id from the chats or users list when it is listed. */
  method BanCommand(bot: BotSet, db: SettingsTable, uid: int, text: string, now: int) returns (replies: seq<Reply>)
    modifies bot, db
    ensures uid !in old(bot.s.admins) ==> replies == [] && bot.s == old(bot.s) && db.rows == old(db.rows)
    ensures uid in old(bot.s.admins) && IdOf(text).None? ==>
      replies == [BanAuthFormat] && bot.s == old(bot.s) && db.rows == old(db.rows)
    ensures uid in old(bot.s.admins) && IdOf(text).Some? ==>
      var id := IdOf(text).value;
      var chats := IsChatId(id);
      var list := ListFor(old(bot.s), chats);
      && bot.s == WithList(old(bot.s), chats, Message.RemoveFirst(list, id))
      && db.rows == SavedList(old(db.rows), chats, id in list, Message.RemoveFirst(list, id), now)
      && replies == (if id in list then [BanId] else [UserDoesNotExist, BanId])
  {
    replies := [];
    if uid !in bot.s.admins {
      return;
    }
    match IdOf(text)
    case None =>
      replies := [BanAuthFormat];
    case Some(id) =>
      replies := RemoveId(bot, db, id, IsChatId(id), now);
      replies := replies + [BanId];
  }
}
