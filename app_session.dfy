/** The session of the richer variant of the app: five pieces of state that
    the event handlers update through their setters. Each handler is a
    method; the list it builds comes from the list operations of `TaskList`.

    A handler reads the state as it was when it started and writes the new
    values at the end, so a handler that calls another helper still sees
    the list it started with. The identifiers (`Math.random`) and
    timestamps (`new Date().toISOString()`) are inputs, one per created
    task, and so is the reply of the generative model. */
module AppSession {
  import opened Types
  import opened JsText
  import opened TaskList
  import opened GeminiService

  const Greeting: string := "¡Hola! Soy Rosy, tu asistente mágico. ✨"
  const AskFirst: string := "Dime una tarea primero para que pueda usar mi magia... ✨"
  const Consulting: string := "Consultando con las estrellas... 🌟"
  const WandFailed: string := "¡Oh no! Mi varita mágica falló. Intenta de nuevo. 🌸"
  const Cheer: string := "¡Yuhu! ¡Eres increíble! Una tarea menos. 🎉"
  const Preparing: string := "Preparando tu evento mágico... 📅"
  const CalendarReady: string := "¡Todo listo! Solo confirma en Google Calendar. 🗓\U{FE0F}✨"
  const NoLink: string := "No pude crear el link, inténtalo de nuevo. 😿"
  const NewAdventure: string := "¿Qué nueva aventura vamos a planear? 🌸"
  const AchievementsLead: string := "¡Mira todo lo que has logrado! Llevas "
  const AchievementsTail: string := " tareas mágicas hechas. 💖"

  /** The confirmation after a manual add, quoting what was typed. */
  function AddedMessage(typed: string): string {
    "¡Genial! Añadí \"" + typed + "\" a tu lista. ¿Necesitas ayuda para planearlo? 🎀"
  }

  /** The message after suggestions were merged, quoting what was typed. */
  function BrokenDownMessage(typed: string): string {
    "¡Bip! He desglosado \"" + typed + "\" en pasos pequeñitos para ti. ¡Tú puedes! 💖"
  }

  /** The achievements message with the count written in decimal. */
  function AchievementsMessage(count: nat): string {
    AchievementsLead + NatToString(count) + AchievementsTail
  }

  /** The count can be read back from the achievements message: between the
      fixed lead and tail there are only decimal digits, and they denote
      exactly the count. */
  lemma AchievementsCountShown(count: nat)
    ensures |AchievementsMessage(count)| > |AchievementsLead| + |AchievementsTail|
    ensures AchievementsMessage(count)[..|AchievementsLead|] == AchievementsLead
    ensures AchievementsMessage(count)[|AchievementsMessage(count)| - |AchievementsTail|..] == AchievementsTail
    ensures var digits := AchievementsMessage(count)[|AchievementsLead|..|AchievementsMessage(count)| - |AchievementsTail|];
      (forall i :: 0 <= i < |digits| ==> IsDigit(digits[i])) && DecimalValue(digits) == count
  {
    var m := AchievementsMessage(count);
    var d := NatToString(count);
    assert m[..|AchievementsLead|] == AchievementsLead;
    assert m[|m| - |AchievementsTail|..] == AchievementsTail;
    assert m[|AchievementsLead|..|m| - |AchievementsTail|] == d;
    DecimalRoundTrip(count);
  }

  /** The task `addTodo` creates from a text, an optional category (the
      default parameter is `personal`) and an optional estimate. */
  function NewTodo(text: string, category: Option<Category>, estimatedTime: Option<string>,
                   id: string, stamp: string): Todo {
    Todo(id, text, false, category.GetOr(Personal), Some(stamp), estimatedTime)
  }

  /** The task `addTodo` creates for one AI suggestion. */
  function SuggestedTodo(s: Suggestion, id: string, stamp: string): Todo {
    NewTodo(s.task, s.category, s.estimatedTime, id, stamp)
  }

  /** The suggestions a reply resolves to, or none when the call failed. */
  function Suggested(reply: ModelReply<seq<Suggestion>>): seq<Suggestion> {
    match SuggestTasks(reply)
    case Rejects => []
    case Resolves(ss) => ss
  }

  class Session {
    var todos: seq<Todo>
    var input: string
    var isAiLoading: bool
    var aiMessage: string
    var filter: Filter

    /** The initial state: no tasks, an empty input, the greeting, and the
        `active` view. */
    constructor()
      ensures todos == [] && input == "" && !isAiLoading
      ensures aiMessage == Greeting && filter == Active
    {
      todos := [];
      input := "";
      isAiLoading := false;
      aiMessage := Greeting;
      filter := Active;
    }

    /** The input field's change handler. */
    method SetInput(typed: string)
      modifies this
      ensures input == typed
      ensures todos == old(todos) && isAiLoading == old(isAiLoading)
      ensures aiMessage == old(aiMessage) && filter == old(filter)
    {
      input := typed;
    }

    /** `addTodo`: the new list is the new task followed by `captured`, the
        list the calling handler started from, and the input is cleared. */
    method AddTodo(captured: seq<Todo>, text: string, category: Option<Category>,
                   estimatedTime: Option<string>, id: string, stamp: string)
      modifies this
      ensures todos == [NewTodo(text, category, estimatedTime, id, stamp)] + captured
      ensures todos[0].text == text && !todos[0].completed && todos[0].id == id
      ensures todos[0].category == category.GetOr(Personal) && todos[0].estimatedTime == estimatedTime
      ensures todos[0].dueDate == Some(stamp) && todos[1..] == captured
      ensures input == ""
      ensures isAiLoading == old(isAiLoading) && aiMessage == old(aiMessage) && filter == old(filter)
    {
      todos := [NewTodo(text, category, estimatedTime, id, stamp)] + captured;
      input := "";
    }

    /** The form submit: white-space-only input changes nothing; otherwise
        the typed text, untrimmed, becomes a `personal` task and the message
        quotes it. */
    method HandleManualAdd(id: string, stamp: string)
      modifies this
      ensures Blank(old(input)) ==>
        todos == old(todos) && input == old(input) && aiMessage == old(aiMessage)
      ensures !Blank(old(input)) ==>
        todos == [Todo(id, old(input), false, Personal, Some(stamp), None)] + old(todos)
        && input == "" && aiMessage == AddedMessage(old(input))
      ensures isAiLoading == old(isAiLoading) && filter == old(filter)
    {
      TrimEmptyIffBlank(input);
      if Trim(input) != "" {
        var typed := input;
        AddTodo(todos, typed, None, None, id, stamp);
        aiMessage := AddedMessage(typed);
      }
    }

    /** The AI button. Blank input only sets a prompt. Otherwise the loading
        flag is false again at the end on every path. A failed call sets the
        failure message; an empty result keeps the list, the input and the
        "Consultando…" message. Each suggestion's `addTodo` rebuilds from
        the list captured at the start, so of n >= 1 suggestions only the
        last stays, ahead of the old list. */
    method HandleAiSuggest(reply: ModelReply<seq<Suggestion>>, ids: nat -> string, stamps: nat -> string)
      modifies this
      ensures Blank(old(input)) ==>
        todos == old(todos) && input == old(input) && isAiLoading == old(isAiLoading)
        && aiMessage == AskFirst
      ensures !Blank(old(input)) ==> !isAiLoading
      ensures !Blank(old(input)) && reply.CallFailed? ==>
        todos == old(todos) && input == old(input) && aiMessage == WandFailed
      ensures !Blank(old(input)) && !reply.CallFailed? && Suggested(reply) == [] ==>
        todos == old(todos) && input == old(input) && aiMessage == Consulting
      ensures !Blank(old(input)) && Suggested(reply) != [] ==>
        var ss := Suggested(reply);
        todos == [SuggestedTodo(ss[|ss| - 1], ids(|ss| - 1), stamps(|ss| - 1))] + old(todos)
        && input == "" && aiMessage == BrokenDownMessage(old(input))
      ensures filter == old(filter)
    {
      TrimEmptyIffBlank(input);
      if Trim(input) == "" {
        aiMessage := AskFirst;
      } else {
        Consult(reply, ids, stamps);
      }
    }

    /** The `try`/`catch`/`finally` of the AI button, once the input passed:
        loading while the reply is awaited, and false again on every path. */
    method Consult(reply: ModelReply<seq<Suggestion>>, ids: nat -> string, stamps: nat -> string)
      modifies this
      ensures !isAiLoading && filter == old(filter)
      ensures reply.CallFailed? ==>
        todos == old(todos) && input == old(input) && aiMessage == WandFailed
      ensures !reply.CallFailed? && Suggested(reply) == [] ==>
        todos == old(todos) && input == old(input) && aiMessage == Consulting
      ensures Suggested(reply) != [] ==>
        var ss := Suggested(reply);
        todos == [SuggestedTodo(ss[|ss| - 1], ids(|ss| - 1), stamps(|ss| - 1))] + old(todos)
        && input == "" && aiMessage == BrokenDownMessage(old(input))
    {
      isAiLoading := true;
      aiMessage := Consulting;
      var captured := todos;
      var typed := input;
      match SuggestTasks(reply) {
        case Rejects =>
          aiMessage := WandFailed;
        case Resolves(ss) =>
          if |ss| > 0 {
            MergeSuggestions(captured, ss, ids, stamps);
            aiMessage := BrokenDownMessage(typed);
            input := "";
          }
      }
      isAiLoading := false;
    }

    /** `suggestions.forEach(s => addTodo(...))`: every call rebuilds from
        `captured`, so each one overwrites the one before and the last
        suggestion is the only one left in front. */
    method MergeSuggestions(captured: seq<Todo>, ss: seq<Suggestion>, ids: nat -> string, stamps: nat -> string)
      requires |ss| > 0
      modifies this
      ensures todos == [SuggestedTodo(ss[|ss| - 1], ids(|ss| - 1), stamps(|ss| - 1))] + captured
      ensures input == ""
      ensures isAiLoading == old(isAiLoading) && aiMessage == old(aiMessage) && filter == old(filter)
    {
      var i := 0;
      while i < |ss|
        invariant 0 <= i <= |ss|
        invariant i > 0 ==> todos == [SuggestedTodo(ss[i - 1], ids(i - 1), stamps(i - 1))] + captured
                            && input == ""
        invariant isAiLoading == old(isAiLoading) && aiMessage == old(aiMessage) && filter == old(filter)
      {
        var s := ss[i];
        AddTodo(captured, s.task, s.category, s.estimatedTime, ids(i), stamps(i));
        i := i + 1;
      }
    }

    /** `toggleTodo`: the list is toggled by id; the celebration appears only
        when the first task with that id existed and was not yet done. */
    method ToggleTodo(id: string)
      modifies this
      ensures todos == ToggleById(old(todos), id)
      ensures FindById(old(todos), id).Some? && !FindById(old(todos), id).value.completed ==>
        aiMessage == Cheer
      ensures !(FindById(old(todos), id).Some? && !FindById(old(todos), id).value.completed) ==>
        aiMessage == old(aiMessage)
      ensures input == old(input) && isAiLoading == old(isAiLoading) && filter == old(filter)
    {
      var before := todos;
      todos := ToggleById(before, id);
      match FindById(before, id)
      case Some(t) =>
        if !t.completed {
          aiMessage := Cheer;
        }
      case None =>
    }

    /** `deleteTodo`: the list without the tasks carrying `id`. */
    method DeleteTodo(id: string)
      modifies this
      ensures todos == RemoveById(old(todos), id)
      ensures input == old(input) && isAiLoading == old(isAiLoading)
      ensures aiMessage == old(aiMessage) && filter == old(filter)
    {
      todos := RemoveById(todos, id);
    }

    /** `syncToCalendar`: when the link request rejects, the handler stops
        after setting the loading flag and the "Preparando…" message, and
        nothing resets them. Otherwise loading ends, and the link is opened,
        with the success message, exactly when one was built. */
    method SyncToCalendar(reply: ModelReply<Json>) returns (rejected: bool, windowUrl: Option<string>)
      modifies this
      ensures rejected <==> reply.CallFailed?
      ensures rejected ==> isAiLoading && aiMessage == Preparing && windowUrl == None
      ensures !rejected ==> !isAiLoading
      ensures !rejected ==> windowUrl == GetCalendarFriendlyFormat(reply).value
      ensures !rejected && windowUrl.Some? ==> aiMessage == CalendarReady
      ensures !rejected && windowUrl.None? ==> aiMessage == NoLink
      ensures todos == old(todos) && input == old(input) && filter == old(filter)
    {
      var settled := GetCalendarFriendlyFormat(reply);
      LinkNeverEmpty(reply);
      isAiLoading := true;
      aiMessage := Preparing;
      rejected, windowUrl := false, None;
      match settled
      case Rejects =>
        rejected := true;
      case Resolves(link) =>
        isAiLoading := false;
        if link.Some? && |link.value| > 0 {
          windowUrl := link;
          aiMessage := CalendarReady;
        } else {
          aiMessage := NoLink;
        }
    }

    /** The "+" button of the navigation bar: back to the `active` view with
        an inviting message (moving the focus is left to the browser). */
    method FocusInput()
      modifies this
      ensures filter == Active && aiMessage == NewAdventure
      ensures todos == old(todos) && input == old(input) && isAiLoading == old(isAiLoading)
    {
      filter := Active;
      aiMessage := NewAdventure;
    }

    /** The heart button: the `completed` view, and a message whose count is
        the number of tasks that view shows. */
    method ShowAchievements()
      modifies this
      ensures filter == Completed
      ensures aiMessage == AchievementsMessage(|View(old(todos), Completed)|)
      ensures todos == old(todos) && input == old(input) && isAiLoading == old(isAiLoading)
    {
      filter := Completed;
      var completedCount := |View(todos, Completed)|;
      aiMessage := AchievementsMessage(completedCount);
    }

    /** The header button: `all` becomes `active`, anything else `all`. */
    method ToggleFilter()
      modifies this
      ensures old(filter) == All ==> filter == Active
      ensures old(filter) != All ==> filter == All
      ensures todos == old(todos) && input == old(input)
      ensures isAiLoading == old(isAiLoading) && aiMessage == old(aiMessage)
    {
      filter := if filter == All then Active else All;
    }

    /** `filteredTodos`, the list the page shows. */
    function FilteredTodos(): seq<Todo>
      reads this
    {
      View(todos, filter)
    }
  }

  /** A link the service resolves to is never the empty string, so the
      truthiness test on it is a test for `null`. */
  lemma LinkNeverEmpty(reply: ModelReply<Json>)
    ensures GetCalendarFriendlyFormat(reply).Resolves? && GetCalendarFriendlyFormat(reply).value.Some? ==>
      GetCalendarFriendlyFormat(reply).value.value != ""
  {
    if reply.Answered? && reply.parsed.Some? {
      CalendarLinkNonEmpty(reply.parsed.value);
    }
  }
}
