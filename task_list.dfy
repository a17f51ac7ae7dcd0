/** The list operations both variants apply to the ordered task list (most
    recent first): flip `completed` by id (a `map`), remove by id (a
    `filter`), find the first task with an id (a `find`) and the status view
    (a `filter` on `completed`). */
module TaskList {
  import opened Types

  /** The task with `completed` negated and every other field kept. */
  function Flipped(t: Todo): (r: Todo)
    ensures r.completed == !t.completed
    ensures r.(completed := t.completed) == t
  {
    t.(completed := !t.completed)
  }

  /** `todos.map(t => t.id === id ? { ...t, completed: !t.completed } : t)`. */
  function ToggleById(ts: seq<Todo>, id: string): (r: seq<Todo>)
    ensures |r| == |ts|
  {
    if ts == [] then []
    else [if ts[0].id == id then Flipped(ts[0]) else ts[0]] + ToggleById(ts[1..], id)
  }

  /** Position by position, toggling flips exactly the tasks carrying `id`
      and leaves every other task, and the order, as it was. */
  lemma {:induction false} ToggleByIdAt(ts: seq<Todo>, id: string)
    ensures forall i :: 0 <= i < |ts| ==>
      ToggleById(ts, id)[i] == if ts[i].id == id then Flipped(ts[i]) else ts[i]
  {
    if ts != [] {
      ToggleByIdAt(ts[1..], id);
    }
  }

  /** Toggling an id that no task carries leaves the list as it was. */
  lemma ToggleUnknownId(ts: seq<Todo>, id: string)
    requires forall t :: t in ts ==> t.id != id
    ensures ToggleById(ts, id) == ts
  {
    ToggleByIdAt(ts, id);
  }

  /** Toggling the same id twice restores the list. */
  lemma ToggleTwice(ts: seq<Todo>, id: string)
    ensures ToggleById(ToggleById(ts, id), id) == ts
  {
    ToggleByIdAt(ts, id);
    ToggleByIdAt(ToggleById(ts, id), id);
  }

  /** `todos.filter(t => t.id !== id)`: what is left is drawn from the list
      and carries another id. */
  function RemoveById(ts: seq<Todo>, id: string): (r: seq<Todo>)
    ensures |r| <= |ts|
    ensures forall t :: t in r ==> t in ts && t.id != id
  {
    if ts == [] then []
    else (if ts[0].id == id then [] else [ts[0]]) + RemoveById(ts[1..], id)
  }

  /** Removal works piece by piece, so the tasks that stay keep their order. */
  lemma {:induction false} RemoveByIdAppend(a: seq<Todo>, b: seq<Todo>, id: string)
    ensures RemoveById(a + b, id) == RemoveById(a, id) + RemoveById(b, id)
  {
    if a == [] {
      assert a + b == b;
    } else {
      assert (a + b)[1..] == a[1..] + b;
      RemoveByIdAppend(a[1..], b, id);
    }
  }

  /** Removal drops every copy of a task with `id` and keeps every copy of
      every other task. */
  lemma {:induction false} RemoveByIdCounts(ts: seq<Todo>, id: string, t: Todo)
    ensures multiset(RemoveById(ts, id))[t] == if t.id == id then 0 else multiset(ts)[t]
  {
    if ts != [] {
      RemoveByIdCounts(ts[1..], id, t);
      var head := if ts[0].id == id then [] else [ts[0]];
      assert RemoveById(ts, id) == head + RemoveById(ts[1..], id);
      assert multiset(RemoveById(ts, id)) == multiset(head) + multiset(RemoveById(ts[1..], id));
      assert ts == [ts[0]] + ts[1..];
      assert multiset(ts) == multiset([ts[0]]) + multiset(ts[1..]);
    }
  }

  /** Removing an id that no task carries leaves the list as it was. */
  lemma {:induction false} RemoveUnknownId(ts: seq<Todo>, id: string)
    requires forall t :: t in ts ==> t.id != id
    ensures RemoveById(ts, id) == ts
  {
    if ts != [] {
      RemoveUnknownId(ts[1..], id);
    }
  }

  /** Removing the id of every task empties the list. */
  lemma {:induction false} RemoveAllIds(ts: seq<Todo>, id: string)
    requires forall t :: t in ts ==> t.id == id
    ensures RemoveById(ts, id) == []
  {
    if ts != [] {
      assert ts[0] in ts;
      RemoveAllIds(ts[1..], id);
    }
  }

  /** `todos.find(t => t.id === id)`: the first task carrying `id`, or
      nothing when no task carries it. */
  function FindById(ts: seq<Todo>, id: string): (r: Option<Todo>)
    ensures r.None? <==> forall t :: t in ts ==> t.id != id
    ensures r.Some? ==> exists i :: 0 <= i < |ts| && ts[i] == r.value && r.value.id == id
                          && forall j :: 0 <= j < i ==> ts[j].id != id
  {
    if ts == [] then None
    else if ts[0].id == id then Some(ts[0])
    else
      var r := FindById(ts[1..], id);
      assert r.Some? ==> exists i :: 1 <= i < |ts| && ts[i] == r.value && r.value.id == id
                                   && forall j :: 1 <= j < i ==> ts[j].id != id by {
        if r.Some? {
          var i :| 0 <= i < |ts[1..]| && ts[1..][i] == r.value && r.value.id == id
                   && forall j :: 0 <= j < i ==> ts[1..][j].id != id;
          assert forall j :: 1 <= j < i + 1 ==> ts[j].id != id by {
            forall j | 1 <= j < i + 1 ensures ts[j].id != id { assert ts[j] == ts[1..][j - 1]; }
          }
        }
      }
      r
  }

  /** Whether the view under `f` shows task `t`. */
  predicate Shows(f: Filter, t: Todo) {
    match f
    case Completed => t.completed
    case Active => !t.completed
    case All => true
  }

  /** The filtered list view: a sub-list of the tasks the filter shows. */
  function View(ts: seq<Todo>, f: Filter): (r: seq<Todo>)
    ensures |r| <= |ts|
    ensures forall t :: t in r ==> t in ts && Shows(f, t)
  {
    if ts == [] then []
    else (if Shows(f, ts[0]) then [ts[0]] else []) + View(ts[1..], f)
  }

  /** The view works piece by piece, so it never reorders tasks. */
  lemma {:induction false} ViewAppend(a: seq<Todo>, b: seq<Todo>, f: Filter)
    ensures View(a + b, f) == View(a, f) + View(b, f)
  {
    if a == [] {
      assert a + b == b;
    } else {
      assert (a + b)[1..] == a[1..] + b;
      ViewAppend(a[1..], b, f);
    }
  }

  /** The `all` view is the list itself. */
  lemma {:induction false} ViewAll(ts: seq<Todo>)
    ensures View(ts, All) == ts
  {
    if ts != [] {
      ViewAll(ts[1..]);
    }
  }

  /** The active and the completed views split the list between them: every
      task is in exactly one, so the counts add up to the whole. */
  lemma {:induction false} ViewPartition(ts: seq<Todo>)
    ensures multiset(View(ts, Active)) + multiset(View(ts, Completed)) == multiset(ts)
    ensures |View(ts, All)| == |View(ts, Active)| + |View(ts, Completed)|
  {
    ViewAll(ts);
    if ts != [] {
      ViewPartition(ts[1..]);
      assert ts == [ts[0]] + ts[1..];
    }
  }
}
