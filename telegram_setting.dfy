/**
 * bot/modules/telegram_setting.py: the bot-public and anti-spam buttons, and the
 * Apple-wrapper setup conversation, whose stages live in the shared conversation state:
 *
 *   username --text--> password --text--> running --(2FA prompt)--> need_2fa --text--> running
 *
 * with /cancel, and every way out of the setup run, clearing the user's entry.
 */
module TelegramSetting {
  import opened Wrappers
  import opened Dynamic
  import opened Strings
  import opened Assoc
  import opened Cycle
  import opened State
  import opened BotSettings
  import opened PgImpl
  import SettingsHandlers

  // ---------------------------------------------------------------------------
  // Buttons

  /** `bot_public_cb`: the same flip, under BOT_PUBLIC, as the option toggles of the settings panel. */
  method BotPublicButton(bot: BotSet, db: SettingsTable, uid: int, now: int)
    requires BotPublic in bot.s.flags
    modifies bot, db
    ensures uid in old(bot.s.admins) ==>
      var v := SettingsHandlers.Flip(old(bot.s.flags[BotPublic]));
      && bot.s == old(bot.s).(flags := old(bot.s.flags)[BotPublic := v])
      && db.rows == Upsert(old(db.rows), "BOT_PUBLIC", v, false, None, now)
    ensures uid !in old(bot.s.admins) ==> bot.s == old(bot.s) && db.rows == old(db.rows)
  {
    SettingsHandlers.ToggleButton(bot, db, uid, BotPublic, now);
  }

  const AntiSpamModes: seq<Value> := [StrV("OFF"), StrV("USER"), StrV("CHAT+")]

  /** The anti-spam mode after one press; None where `anti.index` raises. */
  function NextAntiSpam(current: Value): (r: Option<Value>)
    ensures r.Some? <==> current in AntiSpamModes
    ensures r.Some? ==> r.value in AntiSpamModes
  {
    Next(AntiSpamModes, current)
  }

  lemma AntiSpamModesDistinct()
    ensures Distinct(AntiSpamModes)
  {
    var m := AntiSpamModes;
    assert |m[0].s| == 3 && |m[1].s| == 4 && |m[2].s| == 5;
  }

  /** The order of the cycle: OFF, USER, CHAT+, then OFF again. */
  lemma AntiSpamOrder()
    ensures NextAntiSpam(StrV("OFF")) == Some(StrV("USER"))
    ensures NextAntiSpam(StrV("USER")) == Some(StrV("CHAT+"))
    ensures NextAntiSpam(StrV("CHAT+")) == Some(StrV("OFF"))
  {
    AntiSpamModesDistinct();
    IndexOfDistinct(AntiSpamModes, 0);
    IndexOfDistinct(AntiSpamModes, 1);
    IndexOfDistinct(AntiSpamModes, 2);
  }

  /** Three presses bring the mode back to where it was. */
  lemma AntiSpamCycle(current: Value)
    requires current in AntiSpamModes
    ensures Presses(AntiSpamModes, current, 3) == Some(current)
  {
    AntiSpamModesDistinct();
    FullCircle(AntiSpamModes, current);
  }

  /** `anti_spam_cb`. */
  method AntiSpamButton(bot: BotSet, db: SettingsTable, uid: int, now: int) returns (r: Result<()>)
    modifies bot, db
    ensures uid in old(bot.s.admins) && old(bot.s.antiSpam) in AntiSpamModes ==>
      var next := NextAntiSpam(old(bot.s.antiSpam)).value;
      && bot.s == old(bot.s).(antiSpam := next)
      && db.rows == Upsert(old(db.rows), "ANTI_SPAM", next, false, None, now)
    ensures !(uid in old(bot.s.admins) && old(bot.s.antiSpam) in AntiSpamModes) ==>
      bot.s == old(bot.s) && db.rows == old(db.rows)
    ensures r.Err? <==> uid in old(bot.s.admins) && old(bot.s.antiSpam) !in AntiSpamModes
  {
    r := Ok(());
    if uid in bot.s.admins {
      match NextAntiSpam(bot.s.antiSpam)
      case None =>
        r := Err("ValueError");
      case Some(next) =>
        bot.s := bot.s.(antiSpam := next);
        db.SetVariable("ANTI_SPAM", next, false, None, now);
    }
  }

  // ---------------------------------------------------------------------------
  // The setup conversation

  /** The asyncio future the setup run waits on for the 2FA code. */
  class Future {
    var done: bool
    var result: Option<string>

    constructor ()
      ensures !done && result == None
    {
      done := false;
      result := None;
    }

    /** `set_result`, which the caller only uses on a future that is not done. */
    method SetResult(v: string)
      requires !done
      modifies this
      ensures done && result == Some(v)
    {
      done := true;
      result := Some(v);
    }
  }

  /** What the setup conversation keeps in a user's data bag: texts, and the pending future. */
  datatype FlowValue = Text(text: string) | Pending(future: Future)

  /** The `_pending_2fa` future of an entry, if it holds one. */
  function PendingOf(e: Entry<FlowValue>): Option<Future> {
    if "_pending_2fa" in e.data && e.data["_pending_2fa"].Pending? then Some(e.data["_pending_2fa"].future) else None
  }

  /** The futures `handle_text_input` may resolve: the pending one of the sender's entry. */
  function PendingFrame(cs: ConversationState<FlowValue>, uid: int): set<Future>
    reads cs
  {
    if uid in cs.states && PendingOf(cs.states[uid]).Some? then {PendingOf(cs.states[uid]).value} else {}
  }

  /** The reply `handle_text_input` sends, and whether it starts the setup run. */
  datatype TextReply = NoReply | AskPassword | StartSetup | CodeReceived

  /** `handle_text_input`: one text from `uid` moves the setup conversation on by one stage. */
  method HandleTextInput(cs: ConversationState<FlowValue>, uid: int, text: string) returns (reply: TextReply)
    modifies cs, PendingFrame(cs, uid)
    ensures uid !in old(cs.states) ==> reply == NoReply && cs.states == old(cs.states)
    ensures uid in old(cs.states) ==>
      var e := old(cs.states[uid]);
      && (e.stage == "apple_setup_username" ==>
            reply == AskPassword
            && cs.states == old(cs.states)[uid := UpdatedEntry(Some(e), Some("apple_setup_password"), map["username" := Text(Strip(text))])])
      && (e.stage == "apple_setup_password" ==>
            reply == StartSetup
            && cs.states == old(cs.states)[uid := UpdatedEntry(Some(e), Some("apple_setup_running"), map["password" := Text(Strip(text))])])
      && (e.stage == "apple_setup_need_2fa" ==>
            reply == CodeReceived
            && cs.states == old(cs.states)[uid := UpdatedEntry(Some(e), Some("apple_setup_running"), map["twofa" := Text(Strip(text))])])
      && (e.stage !in {"apple_setup_username", "apple_setup_password", "apple_setup_need_2fa"} ==>
            reply == NoReply && cs.states == old(cs.states))
    ensures uid in old(cs.states) && PendingOf(old(cs.states[uid])).Some? ==>
      var f := PendingOf(old(cs.states[uid])).value;
      if old(cs.states[uid]).stage == "apple_setup_need_2fa" && !old(f.done)
      then f.done && f.result == Some(Strip(text))
      else f.done == old(f.done) && f.result == old(f.result)
  {
    reply := NoReply;
    var state := cs.Get(uid);
    if state.None? {
      return;
    }
    var e := state.value;
    if e.stage == "apple_setup_username" {
      cs.Update(uid, Some("apple_setup_password"), map["username" := Text(Strip(text))]);
      return AskPassword;
    }
    if e.stage == "apple_setup_password" {
      cs.Update(uid, Some("apple_setup_running"), map["password" := Text(Strip(text))]);
      return StartSetup;
    }
    if e.stage == "apple_setup_need_2fa" {
      var code := Strip(text);
      cs.Update(uid, Some("apple_setup_running"), map["twofa" := Text(code)]);
      reply := CodeReceived;
      var pending := PendingOf(e);
      if pending.Some? && !pending.value.done {
        pending.value.SetResult(code);
      }
    }
  }

  /** `cancel_flow`: /cancel forgets the user's conversation, whatever its stage. */
  method CancelFlow(cs: ConversationState<FlowValue>, uid: int)
    modifies cs
    ensures cs.states == old(cs.states) - {uid}
    ensures uid !in cs.states
  {
    cs.Clear(uid);
  }

  /** A chunk of the setup script's output that asks for the 2FA code. */
  predicate IsPrompt(chunk: string) {
    ContainsSub(chunk, "2FA") || ContainsSub(chunk, "2fa")
  }

  /** Whether any of the first `n` chunks asks for the 2FA code. */
  predicate PromptedBy(chunks: seq<string>, n: nat)
    requires n <= |chunks|
  {
    exists j :: 0 <= j < n && IsPrompt(chunks[j])
  }

  /** The output read so far, chunk after chunk. */
  function Joined(chunks: seq<string>): string {
    if |chunks| == 0 then "" else Joined(chunks[..|chunks| - 1]) + chunks[|chunks| - 1]
  }

  /** `buffer[-2000:]`. */
  function LastChars(s: string, n: nat): (r: string)
    ensures |r| == if |s| <= n then |s| else n
    ensures r == s[|s| - |r|..]
  {
    if |s| <= n then s else s[|s| - n..]
  }

  /** A text entry of the data bag. */
  function TextOf(e: Entry<FlowValue>, key: string): Option<string> {
    if key in e.data && e.data[key].Text? then Some(e.data[key].text) else None
  }

  datatype SetupOutcome = NoState | SetupError | TimedOut | Completed | Failed(rc: int, output: string)

  /**
   * `_run_wrapper_setup_flow` for one run of the setup script. `spawned` is whether the
   * script could be started, `chunks` what it prints, `code` the 2FA code that resolves the
   * future (None: the 180-second wait times out) and `rc` its exit code. `written` is
   * what reaches the script's stdin.
   */
  method SetupFlow(cs: ConversationState<FlowValue>, uid: int, spawned: bool, chunks: seq<string>,
                   code: Option<string>, rc: int) returns (outcome: SetupOutcome, written: seq<string>)
    modifies cs
    ensures cs.states == old(cs.states) - {uid}
    ensures outcome == NoState <==> uid !in old(cs.states)
    ensures uid in old(cs.states) ==>
      var e := old(cs.states[uid]);
      var started := spawned && TextOf(e, "username").Some? && TextOf(e, "password").Some?;
      && (outcome == SetupError <==> !started)
      && (outcome == TimedOut <==> started && PromptedBy(chunks, |chunks|) && code.None?)
      && (started && !(PromptedBy(chunks, |chunks|) && code.None?) ==>
            outcome == (if rc == 0 then Completed else Failed(rc, LastChars(Joined(chunks), 2000))))
      && written == (if started && PromptedBy(chunks, |chunks|) && code.Some? then [code.value + "\n"] else [])
  {
    written := [];
    var state := cs.Get(uid);
    if state.None? {
      return NoState, [];
    }
    var e := state.value;
    if !spawned || TextOf(e, "username").None? || TextOf(e, "password").None? {
      cs.Clear(uid);
      return SetupError, [];
    }
    var asked := false;
    var buffer := "";
    var i := 0;
    while i < |chunks|
      invariant 0 <= i <= |chunks|
      invariant buffer == Joined(chunks[..i])
      invariant asked <==> PromptedBy(chunks, i)
      invariant asked ==> code.Some?
      invariant written == if asked then [code.value + "\n"] else []
      invariant cs.states - {uid} == old(cs.states) - {uid}
    {
      assert chunks[..i + 1][..i] == chunks[..i];
      buffer := buffer + chunks[i];
      if IsPrompt(chunks[i]) && !asked {
        var future := new Future();
        cs.Update(uid, Some("apple_setup_need_2fa"), map["_pending_2fa" := Pending(future)]);
        if code.None? {
          cs.Clear(uid);
          assert PromptedBy(chunks, |chunks|) by { assert IsPrompt(chunks[i]); }
          return TimedOut, [];
        }
        written := [code.value + "\n"];
        asked := true;
      }
      assert PromptedBy(chunks, i + 1) <==> PromptedBy(chunks, i) || IsPrompt(chunks[i]);
      i := i + 1;
    }
    assert chunks[..|chunks|] == chunks;
    cs.Clear(uid);
    if rc == 0 {
      outcome := Completed;
    } else {
      outcome := Failed(rc, LastChars(buffer, 2000));
    }
  }
}
