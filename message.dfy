/**
 * The access checks of bot/helpers/message.py: `check_user`, which decides whether a
 * sender may use the bot, and `antiSpam`, which keeps the module-level `current_user`
 * list of users (or chats) that have a download in flight.
 */
module Message {
  import opened Wrappers

  /**
   * `check_user`: a restricted check asks only whether `uid` is an admin; an unrestricted
   * one lets everybody in on a public bot, and otherwise asks whether the sender or the
   * chat is an admin, an authorised chat or an authorised user.
   */
  function CheckUser(restricted: bool, uid: int, fromId: int, chatId: int,
                     admins: seq<int>, authChats: seq<int>, authUsers: seq<int>, botPublic: bool): (ok: bool)
    ensures restricted ==> (ok <==> uid in admins)
    ensures !restricted && botPublic ==> ok
    ensures !restricted && !botPublic ==>
      (ok <==> exists id :: (id == fromId || id == chatId) && (id in admins || id in authChats || id in authUsers))
  {
    if restricted then uid in admins
    else if botPublic then true
    else
      var allChats := admins + authChats + authUsers;
      fromId in allChats || chatId in allChats
  }

  /** An admin writing from anywhere passes both kinds of check. */
  lemma AdminPasses(uid: int, chatId: int, admins: seq<int>, authChats: seq<int>, authUsers: seq<int>, botPublic: bool)
    requires uid in admins
    ensures CheckUser(true, uid, uid, chatId, admins, authChats, authUsers, botPublic)
    ensures CheckUser(false, uid, uid, chatId, admins, authChats, authUsers, botPublic)
  {
  }

  /** Authorising more users or chats never locks anybody out. */
  lemma CheckUserMonotone(restricted: bool, uid: int, fromId: int, chatId: int, admins: seq<int>,
                          authChats: seq<int>, authUsers: seq<int>, moreChats: seq<int>, moreUsers: seq<int>, botPublic: bool)
    requires CheckUser(restricted, uid, fromId, chatId, admins, authChats, authUsers, botPublic)
    ensures CheckUser(restricted, uid, fromId, chatId, admins, authChats + moreChats, authUsers + moreUsers, botPublic)
  {
    if !restricted && !botPublic {
      var id :| (id == fromId || id == chatId) && (id in admins || id in authChats || id in authUsers);
      assert id in authChats ==> id in authChats + moreChats;
      assert id in authUsers ==> id in authUsers + moreUsers;
    }
  }

  /** The id the anti-spam list tracks in a mode: the chat for "CHAT+", the user for "USER", none otherwise. */
  function TrackedId(mode: string, uid: int, cid: int): (r: Option<int>)
    ensures r.Some? <==> mode == "CHAT+" || mode == "USER"
    ensures mode == "CHAT+" ==> r == Some(cid)
    ensures mode == "USER" ==> r == Some(uid)
  {
    if mode == "CHAT+" then Some(cid)
    else if mode == "USER" then Some(uid)
    else None
  }

  /** `list.remove(x)` on a list holding `x`, and the list unchanged otherwise. */
  function RemoveFirst(s: seq<int>, x: int): (r: seq<int>)
    ensures x !in s ==> r == s
    ensures x in s ==> |r| == |s| - 1 && multiset(r) == multiset(s) - multiset{x}
  {
    if |s| == 0 then s
    else if s[0] == x then
      assert s == [s[0]] + s[1..];
      s[1..]
    else
      assert s == [s[0]] + s[1..];
      [s[0]] + RemoveFirst(s[1..], x)
  }

  /** No id is listed twice. */
  predicate NoDuplicates(s: seq<int>) {
    forall i, j :: 0 <= i < j < |s| ==> s[i] != s[j]
  }

  lemma TailNoDuplicates(s: seq<int>)
    requires |s| > 0 && NoDuplicates(s)
    ensures NoDuplicates(s[1..]) && s[0] !in s[1..]
  {
    forall i | 0 <= i < |s[1..]|
      ensures s[1..][i] != s[0]
    {
      assert s[1..][i] == s[i + 1];
    }
  }

  lemma ConsNoDuplicates(a: int, t: seq<int>)
    requires NoDuplicates(t) && a !in t
    ensures NoDuplicates([a] + t)
  {
    var r := [a] + t;
    forall i, j | 0 <= i < j < |r|
      ensures r[i] != r[j]
    {
      assert r[j] == t[j - 1];
      if i > 0 {
        assert r[i] == t[i - 1];
      }
    }
  }

  /** Removing the only occurrence leaves no occurrence, and keeps the list free of duplicates. */
  lemma {:induction false} RemoveFirstNoDuplicates(s: seq<int>, x: int)
    requires NoDuplicates(s)
    ensures NoDuplicates(RemoveFirst(s, x)) && x !in RemoveFirst(s, x)
  {
    if |s| > 0 {
      TailNoDuplicates(s);
      if s[0] != x {
        RemoveFirstNoDuplicates(s[1..], x);
        var t := RemoveFirst(s[1..], x);
        assert s[0] !in t by {
          assert s[0] !in multiset(s[1..]);
          assert multiset(t) <= multiset(s[1..]);
          assert s[0] !in multiset(t);
        }
        ConsNoDuplicates(s[0], t);
      }
    }
  }

  /** Taking an id that was not listed and then giving it back restores the list. */
  lemma {:induction false} AcquireThenRevoke(s: seq<int>, x: int)
    requires x !in s
    ensures RemoveFirst(s + [x], x) == s
  {
    if |s| > 0 {
      assert (s + [x])[1..] == s[1..] + [x];
      AcquireThenRevoke(s[1..], x);
      assert s == [s[0]] + s[1..];
    }
  }

  /** The module-level `current_user` list. */
  class AntiSpam {
    var current: seq<int>

    constructor ()
      ensures current == []
    {
      current := [];
    }

    /**
     * `antiSpam(uid, cid)` without `revoke`: true ("busy") when the tracked id is
     * listed already; otherwise the id is listed and the answer is false. With
     * anti-spam off the answer is false and the list is left alone.
     */
    method Acquire(mode: string, uid: int, cid: int) returns (busy: bool)
      modifies this
      ensures TrackedId(mode, uid, cid).None? ==> !busy && current == old(current)
      ensures TrackedId(mode, uid, cid).Some? ==>
        var id := TrackedId(mode, uid, cid).value;
        && (busy <==> id in old(current))
        && current == (if busy then old(current) else old(current) + [id])
      ensures NoDuplicates(old(current)) ==> NoDuplicates(current)
    {
      busy := false;
      if mode == "CHAT+" {
        if cid in current {
          return true;
        } else {
          current := current + [cid];
        }
      } else if mode == "USER" {
        if uid in current {
          return true;
        } else {
          current := current + [uid];
        }
      }
    }

    /** `antiSpam(uid, cid, revoke=True)`: the tracked id, if listed, is removed once. */
    method Revoke(mode: string, uid: int, cid: int)
      modifies this
      ensures TrackedId(mode, uid, cid).None? ==> current == old(current)
      ensures TrackedId(mode, uid, cid).Some? ==> current == RemoveFirst(old(current), TrackedId(mode, uid, cid).value)
      ensures NoDuplicates(old(current)) && TrackedId(mode, uid, cid).Some? ==>
        NoDuplicates(current) && TrackedId(mode, uid, cid).value !in current
    {
      if mode == "CHAT+" {
        if cid in current {
          RemoveFirstNoDuplicatesOf(current, cid);
          current := RemoveFirst(current, cid);
        }
      } else if mode == "USER" {
        if uid in current {
          RemoveFirstNoDuplicatesOf(current, uid);
          current := RemoveFirst(current, uid);
        }
      }
    }
  }

  /** `RemoveFirstNoDuplicates` stated as an implication, for callers that do not know the list is duplicate-free. */
  lemma RemoveFirstNoDuplicatesOf(s: seq<int>, x: int)
    ensures NoDuplicates(s) ==> NoDuplicates(RemoveFirst(s, x)) && x !in RemoveFirst(s, x)
  {
    if NoDuplicates(s) {
      RemoveFirstNoDuplicates(s, x);
    }
  }
}
