/**
 * The per-user conversation scratchpad of bot/helpers/state.py: each user id maps to a
 * stage name and a bag of data. The asynchronous methods and their `_sync` twins do the
 * same thing and are one method each here.
 */
module State {
  import opened Wrappers

  /** One user's `{"stage": ..., "data": {...}}`. */
  datatype Entry<V> = Entry(stage: string, data: map<string, V>)

  /** The entry `set_data` writes into: the existing one, or a blank one. */
  function DataEntry<V>(e: Option<Entry<V>>, key: string, value: V): (r: Entry<V>)
    ensures e.None? ==> r.stage == "" && r.data == map[key := value]
    ensures e.Some? ==> r.stage == e.value.stage
    ensures r.data.Keys == (if e.Some? then e.value.data.Keys else {}) + {key}
    ensures key in r.data && r.data[key] == value
    ensures e.Some? ==> forall k :: k in e.value.data && k != key ==> r.data[k] == e.value.data[k]
  {
    var base := if e.Some? then e.value else Entry("", map[]);
    base.(data := base.data[key := value])
  }

  /** The entry `update` writes: created with `stage or ""`, restaged only for a given stage, then merged. */
  function UpdatedEntry<V>(e: Option<Entry<V>>, stage: Option<string>, kwargs: map<string, V>): (r: Entry<V>)
    ensures stage.Some? ==> r.stage == stage.value
    ensures stage.None? ==> r.stage == if e.Some? then e.value.stage else ""
    ensures r.data.Keys == (if e.Some? then e.value.data.Keys else {}) + kwargs.Keys
    ensures forall k :: k in kwargs ==> r.data[k] == kwargs[k]
    ensures e.Some? ==> forall k :: k in e.value.data && k !in kwargs ==> r.data[k] == e.value.data[k]
  {
    var base := if e.Some? then e.value else Entry(if stage.Some? then stage.value else "", map[]);
    var staged := if stage.Some? then base.(stage := stage.value) else base;
    staged.(data := staged.data + kwargs)
  }

  /** An update with no stage and no data only creates the blank entry, if missing. */
  lemma UpdateNothing<V>(e: Option<Entry<V>>)
    ensures UpdatedEntry(e, None, map[]) == if e.Some? then e.value else Entry("", map[])
  {
    if e.Some? {
      assert e.value.data + map[] == e.value.data;
    }
  }

  /** Setting one key is the one-key update that leaves the stage alone. */
  lemma SetDataIsUpdate<V>(e: Option<Entry<V>>, key: string, value: V)
    ensures DataEntry(e, key, value) == UpdatedEntry(e, None, map[key := value])
  {
  }

  class ConversationState<V> {
    /** `_states`. */
    var states: map<int, Entry<V>>

    constructor ()
      ensures states == map[]
    {
      states := map[];
    }

    /** `start`: replaces the user's entry; `data or {}` makes a missing bag empty. */
    method Start(uid: int, stage: string, data: Option<map<string, V>>)
      modifies this
      ensures states == old(states)[uid := Entry(stage, if data.Some? then data.value else map[])]
    {
      states := states[uid := Entry(stage, if data.Some? then data.value else map[])];
    }

    /** `clear`: `pop(uid, None)`, a no-op for an unknown user. */
    method Clear(uid: int)
      modifies this
      ensures states == old(states) - {uid}
    {
      states := states - {uid};
    }

    /** `get`: the entry, or None. */
    method Get(uid: int) returns (r: Option<Entry<V>>)
      ensures r.Some? <==> uid in states
      ensures r.Some? ==> r.value == states[uid]
    {
      r := if uid in states then Some(states[uid]) else None;
    }

    /** The entry of `uid` as an option. */
    function Lookup(uid: int): (r: Option<Entry<V>>)
      reads this
      ensures r.Some? <==> uid in states
      ensures r.Some? ==> r.value == states[uid]
    {
      if uid in states then Some(states[uid]) else None
    }

    /** `set_stage`: changes the stage of an existing entry only. */
    method SetStage(uid: int, stage: string)
      modifies this
      ensures uid in old(states) ==> states == old(states)[uid := old(states)[uid].(stage := stage)]
      ensures uid !in old(states) ==> states == old(states)
    {
      if uid in states {
        states := states[uid := states[uid].(stage := stage)];
      }
    }

    /** `set_data`: creates a blank entry when missing, then sets exactly one data key. */
    method SetData(uid: int, key: string, value: V)
      modifies this
      ensures states == old(states)[uid := DataEntry(old(Lookup(uid)), key, value)]
    {
      if uid !in states {
        states := states[uid := Entry("", map[])];
      }
      var e := states[uid];
      states := states[uid := e.(data := e.data[key := value])];
    }

    /** `update`: creates `stage or ""` when missing, restages only for a given stage, merges `kwargs`. */
    method Update(uid: int, stage: Option<string>, kwargs: map<string, V>)
      modifies this
      ensures states == old(states)[uid := UpdatedEntry(old(Lookup(uid)), stage, kwargs)]
    {
      if uid !in states {
        states := states[uid := Entry(if stage.Some? then stage.value else "", map[])];
      }
      if stage.Some? {
        states := states[uid := states[uid].(stage := stage.value)];
      }
      if kwargs != map[] {
        var e := states[uid];
        states := states[uid := e.(data := e.data + kwargs)];
      } else {
        assert states[uid].data + kwargs == states[uid].data;
      }
    }
  }
}
