/**
 * The in-memory task registry of bot/helpers/tasks.py: a table from task id to the state of
 * one running download, with cooperative cancellation.
 *
 * Every operation runs under one lock in the source; here each method is one atomic step.
 * The subprocess and the progress reporter are opaque handles; `subprocess.terminate()` is
 * recorded in the `terminated` log, in call order.
 */
module Tasks {
  import opened Wrappers
  import Assoc

  /** An attached OS process, by handle. */
  type ProcessHandle = nat
  /** An attached progress reporter, by handle. */
  type ReporterHandle = nat

  datatype Status = Running | Cancelling

  /** `TaskState`: `cancelSet` is the cancel event, set at most once. */
  datatype TaskState = TaskState(
    taskId: string,
    userId: Option<int>,
    chatId: Option<int>,
    caption: string,
    cancelSet: bool,
    subprocess: Option<ProcessHandle>,
    status: Status,
    progress: Option<ReporterHandle>)

  /** The filter `user_id is None or state.user_id == user_id` of `list` and `cancel_all`. */
  predicate Owned(t: TaskState, u: Option<int>) {
    u.None? || t.userId == u
  }

  /** Two states that agree on everything but the cancel event and the status. */
  predicate SameApartFromCancel(a: TaskState, b: TaskState) {
    && a.taskId == b.taskId && a.userId == b.userId && a.chatId == b.chatId
    && a.caption == b.caption && a.subprocess == b.subprocess && a.progress == b.progress
  }

  /** The state change of one cancellation: only a task whose event is unset changes. */
  function Cancelled(t: TaskState): (r: TaskState)
    ensures r.cancelSet
    ensures t.cancelSet ==> r == t
    ensures !t.cancelSet ==> r.status == Cancelling
    ensures SameApartFromCancel(r, t)
  {
    if t.cancelSet then t else t.(cancelSet := true, status := Cancelling)
  }

  /** The terminate requests one cancellation makes: one, when a subprocess is attached and the event was unset. */
  function Terminations(t: TaskState): (r: seq<ProcessHandle>)
    ensures |r| <= 1
    ensures |r| == 1 <==> !t.cancelSet && t.subprocess.Some?
    ensures |r| == 1 ==> r[0] == t.subprocess.value
  {
    if !t.cancelSet && t.subprocess.Some? then [t.subprocess.value] else []
  }

  /** Cancelling twice is cancelling once, and the second time asks for no terminate. */
  lemma CancelIdempotent(t: TaskState)
    ensures Cancelled(Cancelled(t)) == Cancelled(t)
    ensures Terminations(Cancelled(t)) == []
  {
  }

  /** The table after `cancel_all(u)`: every owned task cancelled, every other task as it was. */
  function CancelAllTable(m: map<string, TaskState>, u: Option<int>): (r: map<string, TaskState>)
    ensures r.Keys == m.Keys
    ensures forall id :: id in m && Owned(m[id], u) ==> r[id] == Cancelled(m[id])
    ensures forall id :: id in m && !Owned(m[id], u) ==> r[id] == m[id]
  {
    map id | id in m :: if Owned(m[id], u) then Cancelled(m[id]) else m[id]
  }

  /** Whether `cancel_all(u)` counts this task: owned, with its event still unset. */
  predicate Counted(t: TaskState, u: Option<int>) {
    Owned(t, u) && !t.cancelSet
  }

  /** The number of tasks among the first `n` of `ids` that `cancel_all(u)` counts. */
  function CountTo(m: map<string, TaskState>, ids: seq<string>, u: Option<int>, n: nat): nat
    requires n <= |ids|
  {
    if n == 0 then 0
    else CountTo(m, ids, u, n - 1) + if ids[n - 1] in m && Counted(m[ids[n - 1]], u) then 1 else 0
  }

  /** The terminate requests `cancel_all(u)` makes while walking the first `n` of `ids`. */
  function TerminationsTo(m: map<string, TaskState>, ids: seq<string>, u: Option<int>, n: nat): seq<ProcessHandle>
    requires n <= |ids|
  {
    if n == 0 then []
    else TerminationsTo(m, ids, u, n - 1) + if ids[n - 1] in m && Owned(m[ids[n - 1]], u) then Terminations(m[ids[n - 1]]) else []
  }

  /** The ids among `ids` of the tasks `cancel_all(u)` counts. */
  function CountedAmong(m: map<string, TaskState>, ids: seq<string>, u: Option<int>): set<string> {
    set id | id in ids && id in m && Counted(m[id], u)
  }

  /** Walking a duplicate-free sequence of ids counts each unset, owned task exactly once. */
  lemma {:induction false} CountIsCardinality(m: map<string, TaskState>, ids: seq<string>, u: Option<int>, n: nat)
    requires Assoc.Distinct(ids) && n <= |ids|
    ensures CountTo(m, ids, u, n) == |CountedAmong(m, ids[..n], u)|
  {
    if n == 0 {
      assert CountedAmong(m, ids[..n], u) == {};
    } else {
      var front := ids[..n - 1];
      var last := ids[n - 1];
      CountIsCardinality(m, ids, u, n - 1);
      assert last !in front by {
        assert forall j :: 0 <= j < n - 1 ==> front[j] != last;
      }
      assert forall x :: x in ids[..n] <==> x in front || x == last by {
        assert ids[..n] == front + [last];
      }
      if last in m && Counted(m[last], u) {
        assert CountedAmong(m, ids[..n], u) == CountedAmong(m, front, u) + {last};
      } else {
        assert CountedAmong(m, ids[..n], u) == CountedAmong(m, front, u);
      }
    }
  }

  /** The count `cancel_all(u)` returns is the number of owned tasks whose event was still unset. */
  lemma CancelAllCount(m: map<string, TaskState>, order: seq<string>, u: Option<int>)
    requires Assoc.Distinct(order) && forall x :: x in order <==> x in m
    ensures CountTo(m, order, u, |order|) == |set id | id in m && Counted(m[id], u)|
  {
    CountIsCardinality(m, order, u, |order|);
    assert order[..|order|] == order;
    assert CountedAmong(m, order, u) == set id | id in m && Counted(m[id], u);
  }

  /** After a bulk cancel, a second bulk cancel for the same owner counts nothing and terminates nothing. */
  lemma {:induction false} CancelAllAgainIsQuiet(m: map<string, TaskState>, ids: seq<string>, u: Option<int>, n: nat)
    requires n <= |ids|
    ensures CountTo(CancelAllTable(m, u), ids, u, n) == 0
    ensures TerminationsTo(CancelAllTable(m, u), ids, u, n) == []
  {
    if n > 0 {
      CancelAllAgainIsQuiet(m, ids, u, n - 1);
    }
  }

  /** The entries of `m` owned by `u`, walking `ids` in order: the comprehension in `list`. */
  function Select(m: map<string, TaskState>, ids: seq<string>, u: Option<int>): (r: seq<(string, TaskState)>)
    ensures forall i :: 0 <= i < |r| ==> r[i].0 in ids && r[i].0 in m && r[i].1 == m[r[i].0] && Owned(r[i].1, u)
    ensures forall id :: id in ids && id in m && Owned(m[id], u) ==> id in Assoc.Keys(r)
    ensures Assoc.Distinct(ids) ==> Assoc.Distinct(Assoc.Keys(r))
  {
    if ids == [] then []
    else
      var rest := Select(m, ids[1..], u);
      var id := ids[0];
      if id in m && Owned(m[id], u) then
        var r := [(id, m[id])] + rest;
        assert Assoc.Keys(r) == [id] + Assoc.Keys(rest);
        r
      else rest
  }

  /** `order` with `id` removed: the insertion order after `del d[id]`. */
  function Without(order: seq<string>, id: string): (r: seq<string>)
    ensures forall x :: x in r <==> x in order && x != id
    ensures id !in order ==> r == order
    ensures Assoc.Distinct(order) ==> Assoc.Distinct(r)
  {
    if order == [] then []
    else if order[0] == id then Without(order[1..], id)
    else
      var rest := Without(order[1..], id);
      assert Assoc.Distinct(order) ==> order[0] !in order[1..];
      [order[0]] + rest
  }

  /** `ids` lists every task of `m` once. */
  ghost predicate Enumerates(ids: seq<string>, m: map<string, TaskState>) {
    Assoc.Distinct(ids) && forall x :: x in ids <==> x in m
  }

  /** The table after `cancel_all(u)` has walked the first `n` of `ids`. */
  function TableTo(m: map<string, TaskState>, ids: seq<string>, u: Option<int>, n: nat): (r: map<string, TaskState>)
    requires n <= |ids|
  {
    if n == 0 then m
    else
      var t := TableTo(m, ids, u, n - 1);
      var id := ids[n - 1];
      if id in t && Owned(t[id], u) then t[id := Cancelled(t[id])] else t
  }

  /** The walk changes entries and never adds or removes one. */
  lemma {:induction false} TableToKeys(m: map<string, TaskState>, ids: seq<string>, u: Option<int>, n: nat)
    requires n <= |ids|
    ensures TableTo(m, ids, u, n).Keys == m.Keys
  {
    if n > 0 {
      TableToKeys(m, ids, u, n - 1);
    }
  }

  /** Walking a duplicate-free `ids`, each task is cancelled exactly when it was walked and is owned. */
  lemma {:induction false} TableToAt(m: map<string, TaskState>, ids: seq<string>, u: Option<int>, n: nat, x: string)
    requires Assoc.Distinct(ids) && n <= |ids| && x in m
    ensures x in TableTo(m, ids, u, n)
    ensures TableTo(m, ids, u, n)[x] == if x in ids[..n] && Owned(m[x], u) then Cancelled(m[x]) else m[x]
  {
    TableToKeys(m, ids, u, n);
    if n > 0 {
      TableToAt(m, ids, u, n - 1, x);
      assert ids[..n] == ids[..n - 1] + [ids[n - 1]];
      var k := n - 1;
      if x == ids[k] {
        assert x !in ids[..k] by {
          assert forall j :: 0 <= j < k ==> ids[..k][j] != x;
        }
      }
    }
  }

  /** The whole walk over an enumeration of the table is the bulk cancel. */
  lemma TableToAll(m: map<string, TaskState>, ids: seq<string>, u: Option<int>)
    requires Enumerates(ids, m)
    ensures TableTo(m, ids, u, |ids|) == CancelAllTable(m, u)
  {
    assert ids[..|ids|] == ids;
    TableToKeys(m, ids, u, |ids|);
    forall x | x in m
      ensures TableTo(m, ids, u, |ids|)[x] == CancelAllTable(m, u)[x]
    {
      TableToAt(m, ids, u, |ids|, x);
    }
  }

  /** The walk has reached `ids[i]`, whose task is still as in `m`. */
  lemma WalkAt(m: map<string, TaskState>, ids: seq<string>, u: Option<int>, i: nat)
    requires Enumerates(ids, m) && i < |ids|
    ensures ids[i] in TableTo(m, ids, u, i) && TableTo(m, ids, u, i)[ids[i]] == m[ids[i]]
  {
    var id := ids[i];
    TableToAt(m, ids, u, i, id);
    assert id !in ids[..i] by {
      assert forall j :: 0 <= j < i ==> ids[..i][j] != id;
    }
  }

  /** A step at a counted task cancels it, counts it and asks for its terminations. */
  lemma WalkCounted(m: map<string, TaskState>, ids: seq<string>, u: Option<int>, i: nat)
    requires Enumerates(ids, m) && i < |ids| && Counted(m[ids[i]], u)
    ensures TableTo(m, ids, u, i + 1) == TableTo(m, ids, u, i)[ids[i] := Cancelled(m[ids[i]])]
    ensures CountTo(m, ids, u, i + 1) == CountTo(m, ids, u, i) + 1
    ensures TerminationsTo(m, ids, u, i + 1) == TerminationsTo(m, ids, u, i) + Terminations(m[ids[i]])
  {
    WalkAt(m, ids, u, i);
  }

  /** A step at a task that is not counted changes nothing. */
  lemma WalkSkipped(m: map<string, TaskState>, ids: seq<string>, u: Option<int>, i: nat)
    requires Enumerates(ids, m) && i < |ids| && !Counted(m[ids[i]], u)
    ensures TableTo(m, ids, u, i + 1) == TableTo(m, ids, u, i)
    ensures CountTo(m, ids, u, i + 1) == CountTo(m, ids, u, i)
    ensures TerminationsTo(m, ids, u, i + 1) == TerminationsTo(m, ids, u, i)
  {
    WalkAt(m, ids, u, i);
    var t := TableTo(m, ids, u, i);
    var st := m[ids[i]];
    if Owned(st, u) {
      assert t[ids[i] := Cancelled(st)] == t;
    }
  }

  /** The loop of `cancel_all` has walked the first `i` of `ids`. */
  ghost predicate Walked(m: map<string, TaskState>, ids: seq<string>, u: Option<int>, i: nat,
                         table: map<string, TaskState>, count: nat, log: seq<ProcessHandle>)
  {
    i <= |ids| && table == TableTo(m, ids, u, i) && count == CountTo(m, ids, u, i) && log == TerminationsTo(m, ids, u, i)
  }

  /** One turn of the loop keeps the walk in step. */
  lemma WalkNext(m: map<string, TaskState>, ids: seq<string>, u: Option<int>, i: nat,
                 table: map<string, TaskState>, count: nat, log: seq<ProcessHandle>)
    requires Enumerates(ids, m) && i < |ids| && Walked(m, ids, u, i, table, count, log)
    ensures ids[i] in table && table[ids[i]] == m[ids[i]]
    ensures var st := m[ids[i]];
      Owned(st, u) && !st.cancelSet ==> Walked(m, ids, u, i + 1, table[ids[i] := Cancelled(st)], count + 1, log + Terminations(st))
    ensures var st := m[ids[i]];
      !(Owned(st, u) && !st.cancelSet) ==> Walked(m, ids, u, i + 1, table, count, log)
  {
    WalkAt(m, ids, u, i);
    if Counted(m[ids[i]], u) {
      WalkCounted(m, ids, u, i);
    } else {
      WalkSkipped(m, ids, u, i);
    }
  }

  /** The loop of `cancel_all`, walking an enumeration `ids` of the table in order. */
  method CancelWalk(m: map<string, TaskState>, ids: seq<string>, u: Option<int>)
      returns (table: map<string, TaskState>, count: nat, log: seq<ProcessHandle>)
    requires Enumerates(ids, m)
    ensures table == CancelAllTable(m, u)
    ensures count == CountTo(m, ids, u, |ids|)
    ensures log == TerminationsTo(m, ids, u, |ids|)
  {
    count, table, log := 0, m, [];
    var i := 0;
    while i < |ids|
      invariant Walked(m, ids, u, i, table, count, log)
    {
      WalkNext(m, ids, u, i, table, count, log);
      var id := ids[i];
      var st := table[id];
      assert st == m[id];
      if Owned(st, u) && !st.cancelSet {
        table := table[id := Cancelled(st)];
        log := log + Terminations(st);
        count := count + 1;
      }
      assert Walked(m, ids, u, i + 1, table, count, log);
      i := i + 1;
    }
    TableToAll(m, ids, u);
  }

  class TaskManager {
    /** `_tasks`. */
    var tasks: map<string, TaskState>
    /** The insertion order of `_tasks`, which `list` and `cancel_all` follow. */
    var order: seq<string>
    /** Every `subprocess.terminate()` requested so far, oldest first. */
    var terminated: seq<ProcessHandle>

    ghost predicate Valid()
      reads this
    {
      && Assoc.Distinct(order)
      && (forall id :: id in order <==> id in tasks)
      && (forall id :: id in tasks ==> tasks[id].taskId == id)
      && (forall id :: id in tasks ==> (tasks[id].cancelSet <==> tasks[id].status == Cancelling))
    }

    constructor ()
      ensures Valid() && tasks == map[] && order == [] && terminated == []
    {
      tasks, order, terminated := map[], [], [];
    }

    /**
     * `create`: the id is `uuid4().hex[:8]` in the source, a parameter here. The source never
     * checks it for a collision: a colliding id replaces the old entry in its place.
     */
    method Create(id: string, userId: Option<int>, chatId: Option<int>, caption: string) returns (st: TaskState)
      requires Valid()
      modifies this
      ensures Valid()
      ensures st == TaskState(id, userId, chatId, caption, false, None, Running, None)
      ensures tasks == old(tasks)[id := st]
      ensures order == if id in old(tasks) then old(order) else old(order) + [id]
      ensures terminated == old(terminated)
    {
      st := TaskState(id, userId, chatId, caption, false, None, Running, None);
      if id !in tasks {
        order := order + [id];
      }
      tasks := tasks[id := st];
    }

    /** `register_subprocess`: a silent no-op for an unknown id. */
    method RegisterSubprocess(id: string, p: ProcessHandle)
      requires Valid()
      modifies this
      ensures Valid()
      ensures id in old(tasks) ==> tasks == old(tasks)[id := old(tasks)[id].(subprocess := Some(p))]
      ensures id !in old(tasks) ==> tasks == old(tasks)
      ensures order == old(order) && terminated == old(terminated)
    {
      if id in tasks {
        tasks := tasks[id := tasks[id].(subprocess := Some(p))];
      }
    }

    /** `clear_subprocess`: a silent no-op for an unknown id. */
    method ClearSubprocess(id: string)
      requires Valid()
      modifies this
      ensures Valid()
      ensures id in old(tasks) ==> tasks == old(tasks)[id := old(tasks)[id].(subprocess := None)]
      ensures id !in old(tasks) ==> tasks == old(tasks)
      ensures order == old(order) && terminated == old(terminated)
    {
      if id in tasks {
        tasks := tasks[id := tasks[id].(subprocess := None)];
      }
    }

    /** `attach_progress`: a silent no-op for an unknown id. */
    method AttachProgress(id: string, reporter: ReporterHandle)
      requires Valid()
      modifies this
      ensures Valid()
      ensures id in old(tasks) ==> tasks == old(tasks)[id := old(tasks)[id].(progress := Some(reporter))]
      ensures id !in old(tasks) ==> tasks == old(tasks)
      ensures order == old(order) && terminated == old(terminated)
    {
      if id in tasks {
        tasks := tasks[id := tasks[id].(progress := Some(reporter))];
      }
    }

    /** `cancel`: false for an unknown id; otherwise true, setting the event once. */
    method Cancel(id: string) returns (found: bool)
      requires Valid()
      modifies this
      ensures Valid()
      ensures found <==> id in old(tasks)
      ensures found ==> tasks == old(tasks)[id := Cancelled(old(tasks)[id])]
      ensures found ==> terminated == old(terminated) + Terminations(old(tasks)[id])
      ensures !found ==> tasks == old(tasks) && terminated == old(terminated)
      ensures order == old(order)
    {
      if id !in tasks {
        return false;
      }
      var st := tasks[id];
      if !st.cancelSet {
        tasks := tasks[id := st.(cancelSet := true, status := Cancelling)];
        if st.subprocess.Some? {
          terminated := terminated + [st.subprocess.value];
        }
      }
      return true;
    }

    /** `cancel_all`: cancels every task of `u` (every task when `u` is None) and counts those newly cancelled. */
    method CancelAll(u: Option<int>) returns (count: nat)
      requires Valid()
      modifies this
      ensures Valid()
      ensures count == CountTo(old(tasks), old(order), u, |old(order)|)
      ensures tasks == CancelAllTable(old(tasks), u)
      ensures terminated == old(terminated) + TerminationsTo(old(tasks), old(order), u, |old(order)|)
      ensures order == old(order)
    {
      var table, log;
      table, count, log := CancelWalk(tasks, order, u);
      tasks, terminated := table, terminated + log;
    }

    /** `finish`: removes the entry; a no-op for an unknown id. The final status is only logged. */
    method Finish(id: string)
      requires Valid()
      modifies this
      ensures Valid()
      ensures tasks == old(tasks) - {id}
      ensures order == Without(old(order), id)
      ensures terminated == old(terminated)
    {
      if id in tasks {
        tasks := tasks - {id};
        order := Without(order, id);
      }
    }

    /** `get`: the entry, or None. */
    method Get(id: string) returns (r: Option<TaskState>)
      requires Valid()
      ensures r.Some? <==> id in tasks
      ensures r.Some? ==> r.value == tasks[id] && r.value.taskId == id
    {
      r := if id in tasks then Some(tasks[id]) else None;
    }

    /** `list`: exactly the entries owned by `u` (all entries when `u` is None), in insertion order. */
    function List(u: Option<int>): (r: seq<(string, TaskState)>)
      reads this
      requires Valid()
      ensures Assoc.Distinct(Assoc.Keys(r))
      ensures forall id :: id in Assoc.Keys(r) <==> id in tasks && Owned(tasks[id], u)
      ensures forall i :: 0 <= i < |r| ==> r[i].0 in tasks && r[i].1 == tasks[r[i].0]
      ensures u.None? ==> |r| == |tasks|
    {
      var r := Select(tasks, order, u);
      assert forall id :: id in Assoc.Keys(r) ==> id in order by {
        forall id | id in Assoc.Keys(r) ensures id in order {
          var i :| 0 <= i < |r| && Assoc.Keys(r)[i] == id;
        }
      }
      if u.None? then
        assert (set id | id in Assoc.Keys(r)) == tasks.Keys;
        DistinctCard(Assoc.Keys(r));
        DistinctCard(order);
        assert (set id | id in order) == tasks.Keys;
        r
      else r
    }
  }

  lemma {:induction false} DistinctCard(s: seq<string>)
    requires Assoc.Distinct(s)
    ensures |set x | x in s| == |s|
  {
    if s != [] {
      var front := s[..|s| - 1];
      assert (set x | x in s) == (set x | x in front) + {s[|s| - 1]};
      assert s[|s| - 1] !in front;
      DistinctCard(front);
    }
  }
}
