/** The standalone variant of the app (`index.js`): its own copies of the
    two model calls, and a session whose handlers differ from the richer
    variant's. `addTask` updates the list through a function of the previous
    list, so every task of a batch is kept; `handleAi` only refuses the
    literal empty input; a task's id is the `Date.now()` reading, an input
    here, so tasks created within one millisecond share it. */
module StandaloneApp {
  import opened Types
  import opened JsText
  import opened TaskList
  import opened GeminiService

  const Greeting: string := "¡Hola! Soy Rosy, vamos a organizarnos. ✨"
  const WriteSomething: string := "Escribe algo para que pueda ayudarte... 🌸"
  const AskingFairies: string := "Consultando con las hadas... 🧚\U{200D}♀\U{FE0F}"
  const Planned: string := "¡Listo! He planeado tus pasos mágicos. 🎀"
  const MagicFailed: string := "Mi magia falló un poquito, ¿intentamos de nuevo? 😿"
  const LookHowFar: string := "¡Mira cuánto has avanzado! 💖"

  /** `suggestTasksWithAi`: the `try` wraps the model call too, so every
      failure gives `[]` and the function never rejects. */
  function SuggestTasksWithAi(reply: ModelReply<seq<Suggestion>>): (r: seq<Suggestion>)
    ensures reply.CallFailed? || reply == Answered(None) ==> r == []
    ensures forall ss :: reply == Answered(Some(ss)) ==> r == ss
  {
    match reply
    case Answered(Some(ss)) => ss
    case _ => []
  }

  /** `getCalendarUrl`: the `try` wraps the model call too, so every
      failure gives `null`; a parsed reply goes through the same link
      building as the service. */
  function GetCalendarUrl(reply: ModelReply<Json>): (r: Option<string>)
    ensures reply.CallFailed? || reply == Answered(None) ==> r == None
    ensures forall data :: reply == Answered(Some(data)) ==> r == CalendarLinkFrom(data)
  {
    match reply
    case Answered(Some(data)) => CalendarLinkFrom(data)
    case _ => None
  }

  /** The two copies agree whenever the model call returned, and differ only
      when it failed: the service rejects where the standalone copy resolves
      to `[]` or `null`. */
  lemma CopiesAgreeUnlessCallFails(suggestReply: ModelReply<seq<Suggestion>>, calendarReply: ModelReply<Json>)
    ensures suggestReply.Answered? ==> SuggestTasks(suggestReply) == Resolves(SuggestTasksWithAi(suggestReply))
    ensures calendarReply.Answered? ==>
      GetCalendarFriendlyFormat(calendarReply) == Resolves(GetCalendarUrl(calendarReply))
    ensures suggestReply.CallFailed? ==> SuggestTasks(suggestReply) == Rejects && SuggestTasksWithAi(suggestReply) == []
    ensures calendarReply.CallFailed? ==>
      GetCalendarFriendlyFormat(calendarReply) == Rejects && GetCalendarUrl(calendarReply) == None
  {
  }

  /** The record `addTask` creates: no due date and no estimate. */
  function NewTask(text: string, category: Option<Category>, id: string): Todo {
    Todo(id, text, false, category.GetOr(Personal), None, None)
  }

  /** The tasks a batch of suggestions adds in front of the list, when the
      k-th `addTask` reads its id from `ids(k)`: a blank task is skipped, and
      each later task goes in front of the earlier ones. */
  function Added(ss: seq<Suggestion>, ids: nat -> string): seq<Todo>
    decreases |ss|
  {
    if ss == [] then []
    else
      var k := |ss| - 1;
      (if Blank(ss[k].task) then [] else [NewTask(ss[k].task, ss[k].category, ids(k))])
        + Added(ss[..k], ids)
  }

  /** One more suggestion adds at most its own task, in front. */
  lemma AddedStep(ss: seq<Suggestion>, i: nat, ids: nat -> string)
    requires i < |ss|
    ensures Added(ss[..i + 1], ids) ==
      (if Blank(ss[i].task) then [] else [NewTask(ss[i].task, ss[i].category, ids(i))]) + Added(ss[..i], ids)
  {
    assert ss[..i + 1][..i] == ss[..i];
  }

  /** Every suggestion with a non-blank task is in the batch. */
  lemma {:induction false} AddedKeepsEveryTask(ss: seq<Suggestion>, ids: nat -> string)
    ensures forall k :: 0 <= k < |ss| && !Blank(ss[k].task) ==>
      NewTask(ss[k].task, ss[k].category, ids(k)) in Added(ss, ids)
  {
    if ss != [] {
      var n := |ss| - 1;
      AddedKeepsEveryTask(ss[..n], ids);
      forall k | 0 <= k < |ss| && !Blank(ss[k].task)
        ensures NewTask(ss[k].task, ss[k].category, ids(k)) in Added(ss, ids)
      {
        if k < n {
          assert ss[..n][k] == ss[k];
        }
      }
    }
  }

  /** Nothing else is in the batch: each task comes from a suggestion with
      a non-blank task. */
  lemma {:induction false} AddedOnlyFromSuggestions(ss: seq<Suggestion>, ids: nat -> string)
    ensures forall t :: t in Added(ss, ids) ==>
      exists k :: 0 <= k < |ss| && !Blank(ss[k].task) && t == NewTask(ss[k].task, ss[k].category, ids(k))
  {
    if ss != [] {
      var n := |ss| - 1;
      AddedOnlyFromSuggestions(ss[..n], ids);
      forall t | t in Added(ss, ids)
        ensures exists k :: 0 <= k < |ss| && !Blank(ss[k].task) && t == NewTask(ss[k].task, ss[k].category, ids(k))
      {
        if t in Added(ss[..n], ids) {
          var k :| 0 <= k < n && !Blank(ss[..n][k].task)
                   && t == NewTask(ss[..n][k].task, ss[..n][k].category, ids(k));
          assert ss[..n][k] == ss[k];
        } else {
          assert !Blank(ss[n].task) && t == NewTask(ss[n].task, ss[n].category, ids(n));
        }
      }
    }
  }

  /** When no task is blank, the batch holds one task per suggestion in
      reverse order: the last suggestion ends up first. */
  lemma {:induction false} AddedReversed(ss: seq<Suggestion>, ids: nat -> string)
    requires forall k :: 0 <= k < |ss| ==> !Blank(ss[k].task)
    ensures |Added(ss, ids)| == |ss|
    ensures forall j :: 0 <= j < |ss| ==>
      Added(ss, ids)[j] == NewTask(ss[|ss| - 1 - j].task, ss[|ss| - 1 - j].category, ids(|ss| - 1 - j))
  {
    if ss != [] {
      var n := |ss| - 1;
      var pre := ss[..n];
      assert forall k :: 0 <= k < n ==> pre[k] == ss[k];
      AddedReversed(pre, ids);
      var rest := Added(pre, ids);
      var r := Added(ss, ids);
      assert !Blank(ss[n].task);
      assert r == [NewTask(ss[n].task, ss[n].category, ids(n))] + rest;
      forall j | 1 <= j < |ss|
        ensures r[j] == NewTask(ss[n - j].task, ss[n - j].category, ids(n - j))
      {
        assert r[j] == rest[j - 1];
        assert pre[n - 1 - (j - 1)] == ss[n - j];
      }
    }
  }

  /** When every `Date.now()` reading of a batch is the same, all of its
      tasks carry that one id. */
  lemma {:induction false} AddedSharedId(ss: seq<Suggestion>, ids: nat -> string, id: string)
    requires forall k: nat :: ids(k) == id
    ensures forall t :: t in Added(ss, ids) ==> t.id == id
  {
    if ss != [] {
      AddedSharedId(ss[..|ss| - 1], ids, id);
    }
  }

  /** Tasks of one batch that share an id are deleted together: deleting
      that id removes the whole batch, and from the rest of the list just
      what deleting it would remove anyway. */
  lemma DeleteRemovesWholeBatch(ss: seq<Suggestion>, ids: nat -> string, id: string, prev: seq<Todo>)
    requires forall k: nat :: ids(k) == id
    ensures RemoveById(Added(ss, ids) + prev, id) == RemoveById(prev, id)
  {
    AddedSharedId(ss, ids, id);
    RemoveByIdAppend(Added(ss, ids), prev, id);
    RemoveAllIds(Added(ss, ids), id);
  }

  /** ... and toggled together: toggling that id flips every task of the
      batch. */
  lemma ToggleFlipsWholeBatch(ss: seq<Suggestion>, ids: nat -> string, id: string, prev: seq<Todo>)
    requires forall k: nat :: ids(k) == id
    ensures forall j :: 0 <= j < |Added(ss, ids)| ==>
      ToggleById(Added(ss, ids) + prev, id)[j] == Flipped(Added(ss, ids)[j])
  {
    AddedSharedId(ss, ids, id);
    ToggleByIdAt(Added(ss, ids) + prev, id);
    assert forall j :: 0 <= j < |Added(ss, ids)| ==> Added(ss, ids)[j] in Added(ss, ids);
  }

  class Planner {
    var todos: seq<Todo>
    var input: string
    var loading: bool
    var msg: string
    var filter: Filter

    /** The initial state: no tasks, an empty input, the greeting, and the
        `active` view. */
    constructor()
      ensures todos == [] && input == "" && !loading && msg == Greeting && filter == Active
    {
      todos := [];
      input := "";
      loading := false;
      msg := Greeting;
      filter := Active;
    }

    /** The input field's change handler. */
    method SetInput(typed: string)
      modifies this
      ensures input == typed
      ensures todos == old(todos) && loading == old(loading) && msg == old(msg) && filter == old(filter)
    {
      input := typed;
    }

    /** `addTask`: a blank text changes nothing; otherwise the new task
        (with the text as given, untrimmed) goes in front of the current
        list and the input is cleared. */
    method AddTask(text: string, category: Option<Category>, id: string)
      modifies this
      ensures Blank(text) ==> todos == old(todos) && input == old(input)
      ensures !Blank(text) ==> todos == [NewTask(text, category, id)] + old(todos) && input == ""
      ensures loading == old(loading) && msg == old(msg) && filter == old(filter)
    {
      var trimmed := Trim(text);
      TrimEmptyIffBlank(text);
      if trimmed == "" {
        return;
      }
      todos := [NewTask(text, category, id)] + todos;
      input := "";
    }

    /** The Enter key and the "+" button: `addTask(input)`. */
    method AddFromInput(id: string)
      modifies this
      ensures Blank(old(input)) ==> todos == old(todos) && input == old(input)
      ensures !Blank(old(input)) ==> todos == [NewTask(old(input), None, id)] + old(todos) && input == ""
      ensures loading == old(loading) && msg == old(msg) && filter == old(filter)
    {
      AddTask(input, None, id);
    }

    /** `handleAi`: only the literal empty input is refused, with a prompt.
        Otherwise every non-blank suggestion is added, the last one first,
        ahead of the old list; no suggestions gives the failure message; the
        loading flag ends false. */
    method HandleAi(reply: ModelReply<seq<Suggestion>>, ids: nat -> string)
      modifies this
      ensures old(input) == "" ==>
        todos == old(todos) && input == old(input) && loading == old(loading) && msg == WriteSomething
      ensures old(input) != "" ==> !loading
      ensures old(input) != "" && SuggestTasksWithAi(reply) == [] ==>
        todos == old(todos) && input == old(input) && msg == MagicFailed
      ensures old(input) != "" && SuggestTasksWithAi(reply) != [] ==>
        todos == Added(SuggestTasksWithAi(reply), ids) + old(todos)
        && input == (if Added(SuggestTasksWithAi(reply), ids) == [] then old(input) else "")
        && msg == Planned
      ensures filter == old(filter)
    {
      if input == "" {
        msg := WriteSomething;
        return;
      }
      loading := true;
      msg := AskingFairies;
      var res := SuggestTasksWithAi(reply);
      if |res| > 0 {
        AddEach(res, ids);
        msg := Planned;
      } else {
        msg := MagicFailed;
      }
      loading := false;
    }

    /** `res.forEach(s => addTask(s.task, s.category))`. */
    method AddEach(res: seq<Suggestion>, ids: nat -> string)
      modifies this
      ensures todos == Added(res, ids) + old(todos)
      ensures input == if Added(res, ids) == [] then old(input) else ""
      ensures loading == old(loading) && msg == old(msg) && filter == old(filter)
    {
      var i := 0;
      while i < |res|
        invariant 0 <= i <= |res|
        invariant todos == Added(res[..i], ids) + old(todos)
        invariant input == if Added(res[..i], ids) == [] then old(input) else ""
        invariant loading == old(loading) && msg == old(msg) && filter == old(filter)
      {
        AddedStep(res, i, ids);
        AddTask(res[i].task, res[i].category, ids(i));
        i := i + 1;
      }
      assert res[..|res|] == res;
    }

    /** The inline toggle: every task carrying `id` is flipped. */
    method Toggle(id: string)
      modifies this
      ensures todos == ToggleById(old(todos), id)
      ensures input == old(input) && loading == old(loading) && msg == old(msg) && filter == old(filter)
    {
      todos := ToggleById(todos, id);
    }

    /** The inline delete: every task carrying `id` is removed. */
    method Delete(id: string)
      modifies this
      ensures todos == RemoveById(old(todos), id)
      ensures input == old(input) && loading == old(loading) && msg == old(msg) && filter == old(filter)
    {
      todos := RemoveById(todos, id);
    }

    /** The inline calendar button: the link `getCalendarUrl` resolves to is
        the one opened, if any; no state changes. */
    method Sync(reply: ModelReply<Json>) returns (windowUrl: Option<string>)
      ensures windowUrl == GetCalendarUrl(reply)
      ensures reply.CallFailed? ==> windowUrl == None
    {
      var url := GetCalendarUrl(reply);
      if reply.Answered? && reply.parsed.Some? {
        CalendarLinkNonEmpty(reply.parsed.value);
      }
      windowUrl := if url.Some? && url.value != "" then url else None;
    }

    /** The header button: `all` becomes `active`, anything else `all`. */
    method ToggleFilter()
      modifies this
      ensures old(filter) == All ==> filter == Active
      ensures old(filter) != All ==> filter == All
      ensures todos == old(todos) && input == old(input) && loading == old(loading) && msg == old(msg)
    {
      filter := if filter == All then Active else All;
    }

    /** The heart button: the `completed` view and an encouraging message. */
    method ShowProgress()
      modifies this
      ensures filter == Completed && msg == LookHowFar
      ensures todos == old(todos) && input == old(input) && loading == old(loading)
    {
      filter := Completed;
      msg := LookHowFar;
    }

    /** The "+" button of the navigation bar: the `active` view (moving the
        focus is left to the browser). */
    method FocusInput()
      modifies this
      ensures filter == Active
      ensures todos == old(todos) && input == old(input) && loading == old(loading) && msg == old(msg)
    {
      filter := Active;
    }

    /** `filtered`, the list the page shows. */
    function Filtered(): seq<Todo>
      reads this
    {
      View(todos, filter)
    }
  }
}
