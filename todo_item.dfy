/** One row of the list (components/TodoItem.tsx): the task it shows and its
    own analysis state, the cached breakdown `aiData`, the `analyzing` flag and
    the `showAi` flag. The first click on the magic button fetches and caches
    a breakdown; later clicks only show or hide it. */
module TodoItem {
  import opened Wrappers
  import opened Types
  import opened GeminiService

  class ItemState {
    var todo: Todo
    var aiData: Option<AIAnalysis>
    var analyzing: bool
    var showAi: bool

    /** A request is outstanding only while nothing is cached, so a cached
        breakdown is never overwritten. */
    ghost predicate Valid()
      reads this
    {
      analyzing ==> aiData.None?
    }

    /** A fresh row: nothing cached, nothing outstanding, breakdown hidden. */
    constructor (todo: Todo)
      ensures Valid()
      ensures this.todo == todo && aiData == None && !analyzing && !showAi
    {
      this.todo := todo;
      aiData := None;
      analyzing := false;
      showAi := false;
    }

    /** The breakdown panel is rendered (TodoItem.tsx:100): never without a
        cached breakdown, and never while `showAi` is off. */
    function ShowsBreakdown(): (b: bool)
      reads this
      ensures b ==> aiData.Some?
      ensures !showAi ==> !b
    {
      showAi && aiData.Some?
    }

    /** The magic button is enabled (TodoItem.tsx:76): disabled while an
        analysis is outstanding, and always enabled once a breakdown is cached. */
    function MagicButtonEnabled(): (enabled: bool)
      reads this
      ensures analyzing ==> !enabled
      ensures Valid() && aiData.Some? ==> enabled
    {
      !analyzing
    }

    /** The list re-renders the row, keyed by id, with the task's current
        fields; the analysis state is kept. */
    method ReceiveTodo(t: Todo)
      requires t.id == todo.id
      modifies this`todo
      ensures todo == t
    {
      todo := t;
    }

    /** The check button forwards the task's id and its current status. */
    method ToggleClicked() returns (id: string, currentStatus: bool)
      ensures id == todo.id && currentStatus == todo.isCompleted
    {
      id, currentStatus := todo.id, todo.isCompleted;
    }

    /** The delete button forwards the task's id. */
    method DeleteClicked() returns (id: string)
      ensures id == todo.id
    {
      id := todo.id;
    }

    /** `handleMagicClick` up to the request (TodoItem.tsx:18-23, 25): with a
        breakdown cached it flips `showAi` and asks nothing; otherwise it sets
        `analyzing` and issues one request, for the task's title. */
    method Click() returns (request: Option<string>)
      requires Valid() && MagicButtonEnabled()
      modifies this`analyzing, this`showAi
      ensures Valid()
      ensures old(aiData).Some? ==> request == None && showAi == !old(showAi) && !analyzing
      ensures old(aiData).None? ==> request == Some(todo.title) && analyzing && showAi == old(showAi)
    {
      if aiData.Some? {
        showAi := !showAi;
        request := None;
        return;
      }
      analyzing := true;
      request := Some(todo.title);
    }

    /** `handleMagicClick` once `analyzeTask` has settled (TodoItem.tsx:26-32):
        a breakdown is cached and shown; a rejection leaves the cache empty and
        `showAi` as it was. Either way `analyzing` is cleared. */
    method Settle(outcome: Result<AIAnalysis, string>)
      requires Valid() && analyzing
      modifies this`aiData, this`analyzing, this`showAi
      ensures Valid() && !analyzing
      ensures outcome.Success? ==> aiData == Some(outcome.value) && showAi
      ensures outcome.Failure? ==> aiData == None && showAi == old(showAi)
    {
      match outcome {
        case Success(data) =>
          aiData := Some(data);
          showAi := true;
        case Failure(_) =>
      }
      analyzing := false;
    }

    /** A whole click, the service's model call given as `generate` and its
        parser as `parse`. `calls` lists the titles `analyzeTask` was called
        with: none when a breakdown was cached, which then stays as it was;
        otherwise exactly the task's title. */
    method HandleMagicClick(generate: string -> Generation, parse: string -> Option<AIAnalysis>)
      returns (calls: seq<string>)
      requires Valid() && MagicButtonEnabled()
      modifies this`aiData, this`analyzing, this`showAi
      ensures Valid() && !analyzing
      ensures calls == if old(aiData).Some? then [] else [todo.title]
      ensures old(aiData).Some? ==> aiData == old(aiData) && showAi == !old(showAi)
      ensures old(aiData).Some? ==> ShowsBreakdown() == !old(ShowsBreakdown())
      ensures old(aiData).None? && AnalyzeTask(todo.title, generate, parse).Success? ==> ShowsBreakdown()
      ensures old(aiData).None? ==>
        var r := AnalyzeTask(todo.title, generate, parse);
        && (r.Success? ==> aiData == Some(r.value) && showAi)
        && (r.Failure? ==> aiData == None && showAi == old(showAi))
    {
      var request := Click();
      calls := [];
      if request.Some? {
        calls := [request.value];
        Settle(AnalyzeTask(request.value, generate, parse));
      }
    }
  }

  /** Two clicks on a fresh row whose request succeeds: the first fetches and
      shows the breakdown, the second hides it without a new request. */
  method ClickTwice(t: Todo, generate: string -> Generation, parse: string -> Option<AIAnalysis>)
    requires generate(Prompt(t.title)).Generated?
  {
    var row := new ItemState(t);
    var first := row.HandleMagicClick(generate, parse);
    assert first == [t.title] && row.ShowsBreakdown();
    var cached := row.aiData;
    var second := row.HandleMagicClick(generate, parse);
    assert second == [] && row.aiData == cached && !row.ShowsBreakdown();
  }
}
