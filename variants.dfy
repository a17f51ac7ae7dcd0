/** The two variants side by side, on the same input and the same reply:
    where they agree and where their rules part. */
module Variants {
  import opened Types
  import opened JsText
  import AppSession
  import StandaloneApp

  /** The same batch of suggestions, all with a task, merged by each
      variant into an empty list: the richer variant keeps only the last
      suggestion, because each `addTodo` rebuilds from the list captured at
      the start; the standalone variant keeps every one, last first. */
  method MergeBatch(typed: string, ss: seq<Suggestion>, ids: nat -> string, stamps: nat -> string)
    returns (appTodos: seq<Todo>, plannerTodos: seq<Todo>)
    requires !Blank(typed) && |ss| > 0
    requires forall k :: 0 <= k < |ss| ==> !Blank(ss[k].task)
    ensures |appTodos| == 1
    ensures appTodos[0] == AppSession.SuggestedTodo(ss[|ss| - 1], ids(|ss| - 1), stamps(|ss| - 1))
    ensures |plannerTodos| == |ss|
    ensures forall j :: 0 <= j < |ss| ==>
      plannerTodos[j].text == ss[|ss| - 1 - j].task && plannerTodos[j].id == ids(|ss| - 1 - j)
    ensures plannerTodos[0].text == appTodos[0].text && plannerTodos[0].category == appTodos[0].category
  {
    var reply := Answered(Some(ss));
    var app := new AppSession.Session();
    app.SetInput(typed);
    app.HandleAiSuggest(reply, ids, stamps);
    appTodos := app.todos;

    assert typed != "";
    var planner := new StandaloneApp.Planner();
    planner.SetInput(typed);
    planner.HandleAi(reply, ids);
    plannerTodos := planner.todos;
    StandaloneApp.AddedReversed(ss, ids);
  }

  /** An input of spaces only: the richer variant trims it and only asks
      for a task; the standalone variant tests the raw text, so it consults
      the model and adds what comes back. */
  method SpacesOnly(reply: ModelReply<seq<Suggestion>>, ids: nat -> string, stamps: nat -> string)
    returns (appMessage: string, appTodos: seq<Todo>, plannerMessage: string, plannerTodos: seq<Todo>)
    ensures appMessage == AppSession.AskFirst && appTodos == []
    ensures StandaloneApp.SuggestTasksWithAi(reply) == [] ==>
      plannerMessage == StandaloneApp.MagicFailed && plannerTodos == []
    ensures StandaloneApp.SuggestTasksWithAi(reply) != [] ==>
      plannerMessage == StandaloneApp.Planned
      && plannerTodos == StandaloneApp.Added(StandaloneApp.SuggestTasksWithAi(reply), ids)
  {
    BlankExamples();
    var app := new AppSession.Session();
    app.SetInput("   ");
    app.HandleAiSuggest(reply, ids, stamps);
    appMessage, appTodos := app.aiMessage, app.todos;

    var planner := new StandaloneApp.Planner();
    planner.SetInput("   ");
    planner.HandleAi(reply, ids);
    plannerMessage, plannerTodos := planner.msg, planner.todos;
    assert [] + StandaloneApp.Added(StandaloneApp.SuggestTasksWithAi(reply), ids)
        == StandaloneApp.Added(StandaloneApp.SuggestTasksWithAi(reply), ids);
  }
}
