/** The state logic of the task list component: the records it shows, how a
    fetched row becomes one, how add, delete, toggle and edit change the list
    once the service call behind them succeeds, and which tasks the list shows
    for the current search term and status filter. */
module MainFeature {
  import opened Js
  import opened Seqs
  import opened Gateway
  import Fields
  import TaskService

  /** A task as the component holds it: `{id, title, completed, priority}`. */
  datatype ViewTask = ViewTask(id: JsValue, title: JsValue, completed: JsValue, priority: JsValue)

  // ---------------------------------------------------------------- loading

  /** The transform of a fetched row: `Id` becomes `id`, the title falls back
      to `Name`, `completed` to false and `priority` to 'medium'. */
  function ToView(row: Record): (t: ViewTask)
    ensures t.id == Get(row, "Id")
    ensures Truthy(Get(row, "title")) ==> t.title == Get(row, "title")
    ensures !Truthy(Get(row, "title")) ==> t.title == Get(row, "Name")
    ensures Truthy(Get(row, "completed")) ==> t.completed == Get(row, "completed")
    ensures !Truthy(Get(row, "completed")) ==> t.completed == Bool(false)
    ensures Truthy(Get(row, "priority")) ==> t.priority == Get(row, "priority")
    ensures !Truthy(Get(row, "priority")) ==> t.priority == Str("medium")
  {
    ViewTask(
      Get(row, "Id"),
      Or(Get(row, "title"), Get(row, "Name")),
      Or(Get(row, "completed"), Bool(false)),
      Or(Get(row, "priority"), Str("medium")))
  }

  /** `fetchedTasks.map(...)`: one view task per row, in the same order. */
  function ToViews(rows: seq<Record>): (tasks: seq<ViewTask>)
    ensures |tasks| == |rows|
    ensures forall i | 0 <= i < |rows| :: tasks[i] == ToView(rows[i])
  {
    seq(|rows|, i requires 0 <= i < |rows| => ToView(rows[i]))
  }

  /** The options `loadTasks` passes to the service. */
  function LoadOptions(searchTerm: string, filterStatus: string): Record
  {
    map["searchTerm" := Str(searchTerm), "filterStatus" := Str(filterStatus)]
  }

  /** What `loadTasks` asks the backend for: no `where` for an empty search
      with 'all'; a search term is matched on `title`; 'active' and
      'completed' become an exact match on `completed` with false and true. */
  lemma LoadQueryFilters(searchTerm: string, filterStatus: string)
    ensures var params := TaskService.FetchTasksQuery(LoadOptions(searchTerm, filterStatus));
            && (params.where.None? <==> searchTerm == "" && filterStatus == "all")
            && (searchTerm != "" ==> params.where.Some? && params.where.value[0] == TaskService.TitleClause(Str(searchTerm)))
            && (filterStatus == "active" ==>
                  params.where.Some? && TaskService.CompletedClause(Str(filterStatus)) in params.where.value &&
                  TaskService.CompletedClause(Str(filterStatus)).values == [Bool(false)])
            && (filterStatus == "completed" ==>
                  params.where.Some? && TaskService.CompletedClause(Str(filterStatus)) in params.where.value &&
                  TaskService.CompletedClause(Str(filterStatus)).values == [Bool(true)])
  {
    var options := LoadOptions(searchTerm, filterStatus);
    assert TaskService.SearchTermOf(options) == Str(searchTerm);
    assert TaskService.FilterStatusOf(options) == Str(filterStatus);
    assert TaskService.PriorityOf(options) == Str("");
  }

  // ---------------------------------------------------------------- adding

  /** The data `addTask` hands to `createTask`. */
  function NewTaskData(text: string): Record
  {
    map["Name" := Str(text), "title" := Str(text), "completed" := Bool(false), "priority" := Str("medium")]
  }

  /** All four keys of a new task are updateable and defined, so the create
      payload is the task data itself. */
  lemma NewTaskPayloadIsTaskData(text: string)
    ensures Fields.Projection(TaskService.UpdateableFields, NewTaskData(text)) == NewTaskData(text)
  {
    var data := NewTaskData(text);
    var payload := Fields.Projection(TaskService.UpdateableFields, data);
    assert payload.Keys == data.Keys;
  }

  /** The task `addTask` appends: the created record's `Id`, the typed text, not
      completed, medium priority. None when the create fails or its `data` is
      `undefined` or `null` (reading `Id` then throws). */
  function AddedTask(text: string, reply: Reply<WriteResponse>): (t: Option<ViewTask>)
    ensures t.Some? ==> t.value.title == Str(text) && t.value.completed == Bool(false) && t.value.priority == Str("medium")
    ensures t.Some? <==> WriteOutcome(reply, TaskService.CreateFallback).Ok? &&
                         Prop(WriteOutcome(reply, TaskService.CreateFallback).value, "Id").Some?
    ensures t.Some? ==> t.value.id == Prop(WriteOutcome(reply, TaskService.CreateFallback).value, "Id").value
  {
    match WriteOutcome(reply, TaskService.CreateFallback)
    case Err(_) => None
    case Ok(created) =>
      match Prop(created, "Id")
      case None => None
      case Some(id) => Some(ViewTask(id, Str(text), Bool(false), Str("medium")))
  }

  // ---------------------------------------------------------------- deleting

  /** `tasks.filter(task => task.id !== id)` */
  function WithoutId(tasks: seq<ViewTask>, id: JsValue): (r: seq<ViewTask>)
    ensures IsSubsequence(r, tasks)
    ensures forall i | 0 <= i < |r| :: r[i].id != id
    ensures forall i | 0 <= i < |tasks| && tasks[i].id != id :: tasks[i] in r
    ensures forall t :: multiset(r)[t] == if t.id != id then multiset(tasks)[t] else 0
  {
    FilterIsSubsequence(tasks, OtherId(id));
    FilterCounts(tasks, OtherId(id));
    Filter(tasks, OtherId(id))
  }

  function OtherId(id: JsValue): ViewTask -> bool
  {
    (t: ViewTask) => t.id != id
  }

  /** Deleting an id no task carries changes nothing. */
  lemma DeleteAbsentIsNoOp(tasks: seq<ViewTask>, id: JsValue)
    requires forall i | 0 <= i < |tasks| :: tasks[i].id != id
    ensures WithoutId(tasks, id) == tasks
  {
    FilterKeepsAll(tasks, OtherId(id));
  }

  // ---------------------------------------------------------------- toggling

  /** `tasks.find(t => t.id === id)`: the first task with that id. */
  function FirstWithId(tasks: seq<ViewTask>, id: JsValue): (r: Option<ViewTask>)
    ensures r.None? <==> forall i | 0 <= i < |tasks| :: tasks[i].id != id
    ensures r.Some? ==> exists i | 0 <= i < |tasks| :: tasks[i] == r.value && tasks[i].id == id &&
                          forall j | 0 <= j < i :: tasks[j].id != id
  {
    if tasks == [] then None
    else if tasks[0].id == id then Some(tasks[0])
    else
      var r := FirstWithId(tasks[1..], id);
      assert forall i | 1 <= i < |tasks| :: tasks[i] == tasks[1..][i - 1];
      if r.Some? then
        var i :| 0 <= i < |tasks[1..]| && tasks[1..][i] == r.value && tasks[1..][i].id == id &&
                 forall j | 0 <= j < i :: tasks[1..][j].id != id;
        assert tasks[i + 1] == r.value;
        r
      else r
  }

  /** The `map` of `toggleComplete`: every task with the id gets `!completed`. */
  function Toggled(tasks: seq<ViewTask>, id: JsValue): (r: seq<ViewTask>)
    ensures |r| == |tasks|
    ensures forall i | 0 <= i < |tasks| ::
              r[i].id == tasks[i].id && r[i].title == tasks[i].title && r[i].priority == tasks[i].priority
    ensures forall i | 0 <= i < |tasks| && tasks[i].id == id :: r[i].completed == Bool(!Truthy(tasks[i].completed))
    ensures forall i | 0 <= i < |tasks| && tasks[i].id != id :: r[i] == tasks[i]
  {
    seq(|tasks|, i requires 0 <= i < |tasks| =>
      if tasks[i].id == id then tasks[i].(completed := Not(tasks[i].completed)) else tasks[i])
  }

  /** Toggling an id no task carries changes nothing. */
  lemma ToggleAbsentIsNoOp(tasks: seq<ViewTask>, id: JsValue)
    requires forall i | 0 <= i < |tasks| :: tasks[i].id != id
    ensures Toggled(tasks, id) == tasks
  {
  }

  /** Toggling twice restores the list, provided the toggled tasks hold a
      boolean `completed` (a truthy non-boolean comes back as `true`). */
  lemma ToggleTwiceRestores(tasks: seq<ViewTask>, id: JsValue)
    requires forall i | 0 <= i < |tasks| && tasks[i].id == id :: tasks[i].completed.Bool?
    ensures Toggled(Toggled(tasks, id), id) == tasks
  {
    var once := Toggled(tasks, id);
    var twice := Toggled(once, id);
    forall i | 0 <= i < |tasks| ensures twice[i] == tasks[i] {
      if tasks[i].id == id {
        assert once[i].completed == Bool(!tasks[i].completed.b);
      }
    }
  }

  /** The data `toggleComplete` hands to `updateTask`. */
  function ToggleData(id: JsValue, task: ViewTask): Record
  {
    map["Id" := id, "completed" := Not(task.completed)]
  }

  // ---------------------------------------------------------------- editing

  /** The `map` of `saveEdit`: every task whose id is the edited task's id is
      replaced by the edited task. */
  function Replaced(tasks: seq<ViewTask>, edited: ViewTask): (r: seq<ViewTask>)
    ensures |r| == |tasks|
    ensures forall i | 0 <= i < |tasks| :: r[i].id == tasks[i].id
    ensures forall i | 0 <= i < |tasks| && tasks[i].id == edited.id :: r[i] == edited
    ensures forall i | 0 <= i < |tasks| && tasks[i].id != edited.id :: r[i] == tasks[i]
  {
    seq(|tasks|, i requires 0 <= i < |tasks| => if tasks[i].id == edited.id then edited else tasks[i])
  }

  /** The data `saveEdit` hands to `updateTask`. */
  function EditData(edited: ViewTask): Record
  {
    map["Id" := edited.id, "title" := edited.title, "priority" := edited.priority]
  }

  /** `saveEdit` goes ahead only with a task being edited whose title is a
      string that is not blank; otherwise the handler stops (with a toast, or
      with the TypeError of `editingTask.title.trim()`). */
  predicate CanSave(editing: Option<ViewTask>)
  {
    editing.Some? && editing.value.title.Str? && Trim(editing.value.title.s) != ""
  }

  // ---------------------------------------------------------------- filtering

  /** The status filter: 'all' keeps every task, 'active' the incomplete ones,
      'completed' the completed ones, and any other value none. */
  predicate MatchesFilter(t: ViewTask, filterStatus: string)
  {
    || filterStatus == "all"
    || (filterStatus == "active" && !Truthy(t.completed))
    || (filterStatus == "completed" && Truthy(t.completed))
  }

  /** The search: the lower-cased title includes the lower-cased search term. */
  predicate MatchesSearch(t: ViewTask, searchTerm: string)
    requires t.title.Str?
  {
    Includes(Lower(t.title.s), Lower(searchTerm))
  }

  predicate Shown(t: ViewTask, searchTerm: string, filterStatus: string)
  {
    t.title.Str? && MatchesSearch(t, searchTerm) && MatchesFilter(t, filterStatus)
  }

  function ShownBy(searchTerm: string, filterStatus: string): ViewTask -> bool
  {
    (t: ViewTask) => Shown(t, searchTerm, filterStatus)
  }

  /** `title.toLowerCase()` throws on a title that is not a string. */
  predicate TitlesAreStrings(tasks: seq<ViewTask>)
  {
    forall i | 0 <= i < |tasks| :: tasks[i].title.Str?
  }

  /** `filteredTasks`: the tasks matching both the search and the status
      filter, in list order; None when some title is not a string and the
      filter throws. */
  function Visible(tasks: seq<ViewTask>, searchTerm: string, filterStatus: string): (r: Option<seq<ViewTask>>)
    ensures r.None? <==> !TitlesAreStrings(tasks)
    ensures r.Some? ==> IsSubsequence(r.value, tasks)
    ensures r.Some? ==> forall i | 0 <= i < |r.value| :: Shown(r.value[i], searchTerm, filterStatus)
    ensures r.Some? ==> forall i | 0 <= i < |tasks| && Shown(tasks[i], searchTerm, filterStatus) :: tasks[i] in r.value
    ensures r.Some? ==> forall t :: multiset(r.value)[t] == if Shown(t, searchTerm, filterStatus) then multiset(tasks)[t] else 0
  {
    if TitlesAreStrings(tasks) then
      var keep := ShownBy(searchTerm, filterStatus);
      FilterIsSubsequence(tasks, keep);
      FilterCounts(tasks, keep);
      Some(Filter(tasks, keep))
    else None
  }

  /** With an empty search term and the 'all' filter the list shows every task. */
  lemma EmptySearchShowsAll(tasks: seq<ViewTask>)
    requires TitlesAreStrings(tasks)
    ensures Visible(tasks, "", "all") == Some(tasks)
  {
    forall i | 0 <= i < |tasks| ensures ShownBy("", "all")(tasks[i]) {
      IncludesEmpty(Lower(tasks[i].title.s));
    }
    FilterKeepsAll(tasks, ShownBy("", "all"));
  }

  /** The component's state: the `useState` hooks of the task list. */
  class Component {
    var tasks: seq<ViewTask>
    var newTask: string
    var isLoading: bool
    var searchTerm: string
    var filterStatus: string
    var editingTask: Option<ViewTask>

    constructor ()
      ensures tasks == [] && newTask == "" && isLoading
      ensures searchTerm == "" && filterStatus == "all" && editingTask == None
    {
      tasks := [];
      newTask := "";
      isLoading := true;
      searchTerm := "";
      filterStatus := "all";
      editingTask := None;
    }

    /** `filteredTasks` for the current state. */
    function FilteredTasks(): (r: Option<seq<ViewTask>>)
      reads this
      ensures r.None? <==> !TitlesAreStrings(tasks)
      ensures r.Some? ==> IsSubsequence(r.value, tasks)
      ensures r.Some? ==> forall t :: multiset(r.value)[t] == if Shown(t, searchTerm, filterStatus) then multiset(tasks)[t] else 0
    {
      Visible(tasks, searchTerm, filterStatus)
    }

    /** `loadTasks()`: fetches with the current search term and filter and,
        when the fetch resolves, shows the transformed rows. */
    method LoadTasks(reply: Reply<FetchResponse>) returns (params: FetchParams)
      modifies this
      ensures params == TaskService.FetchTasksQuery(LoadOptions(old(searchTerm), old(filterStatus)))
      ensures FetchOutcome(reply).Ok? ==> tasks == ToViews(FetchOutcome(reply).value)
      ensures FetchOutcome(reply).Err? ==> tasks == old(tasks)
      ensures !isLoading
      ensures newTask == old(newTask) && searchTerm == old(searchTerm)
      ensures filterStatus == old(filterStatus) && editingTask == old(editingTask)
    {
      isLoading := true;
      var rows;
      params, rows := TaskService.FetchTasks(LoadOptions(searchTerm, filterStatus), reply);
      if rows.Ok? {
        tasks := ToViews(rows.value);
      }
      isLoading := false;
    }

    /** `addTask()`: a blank input is refused without a request; otherwise the
        task is created and, once the backend returns its record, appended. */
    method AddTask(reply: Reply<WriteResponse>) returns (payload: Option<Record>)
      modifies this
      ensures Trim(old(newTask)) == "" ==> payload.None? && tasks == old(tasks) && newTask == old(newTask)
      ensures Trim(old(newTask)) != "" ==> payload == Some(NewTaskData(old(newTask)))
      ensures Trim(old(newTask)) != "" && AddedTask(old(newTask), reply).Some? ==>
                tasks == old(tasks) + [AddedTask(old(newTask), reply).value] && newTask == ""
      ensures Trim(old(newTask)) != "" && AddedTask(old(newTask), reply).None? ==>
                tasks == old(tasks) && newTask == old(newTask)
      ensures isLoading == old(isLoading) && searchTerm == old(searchTerm)
      ensures filterStatus == old(filterStatus) && editingTask == old(editingTask)
    {
      if Trim(newTask) == "" {
        return None;
      }
      var data := NewTaskData(newTask);
      var sent, created := TaskService.CreateTask(data, reply);
      NewTaskPayloadIsTaskData(newTask);
      payload := Some(sent);
      if created.Err? {
        return;
      }
      var id := Prop(created.value, "Id");
      if id.None? {
        return;
      }
      tasks := tasks + [ViewTask(id.value, Str(newTask), Bool(false), Str("medium"))];
      newTask := "";
    }

    /** `handleDeleteTask(id)`: asks to delete the id and, unless the call
        rejects, drops every task with that id. */
    method HandleDeleteTask(id: JsValue, reply: Reply<JsValue>) returns (recordIds: seq<JsValue>)
      modifies this
      ensures recordIds == [id]
      ensures reply.Rejected? ==> tasks == old(tasks)
      ensures reply.Answered? ==> tasks == WithoutId(old(tasks), id)
      ensures newTask == old(newTask) && isLoading == old(isLoading) && searchTerm == old(searchTerm)
      ensures filterStatus == old(filterStatus) && editingTask == old(editingTask)
    {
      var deleted;
      recordIds, deleted := TaskService.DeleteTask(id, reply);
      if deleted.Ok? {
        tasks := WithoutId(tasks, id);
      }
    }

    /** `toggleComplete(id)`: nothing happens when no task has the id;
        otherwise the first such task's negated flag is sent and, once the
        update succeeds, every task with the id is toggled. */
    method ToggleComplete(id: JsValue, reply: Reply<WriteResponse>) returns (payload: Option<Record>)
      modifies this
      ensures FirstWithId(old(tasks), id).None? ==> payload.None? && tasks == old(tasks)
      ensures FirstWithId(old(tasks), id).Some? ==>
                var data := ToggleData(id, FirstWithId(old(tasks), id).value);
                && payload == TaskService.UpdatePayload(data)
                && tasks == if TaskService.UpdateOutcome(data, reply).Ok? then Toggled(old(tasks), id) else old(tasks)
      ensures newTask == old(newTask) && isLoading == old(isLoading) && searchTerm == old(searchTerm)
      ensures filterStatus == old(filterStatus) && editingTask == old(editingTask)
    {
      var task := FirstWithId(tasks, id);
      if task.None? {
        return None;
      }
      var data := ToggleData(id, task.value);
      var updated;
      payload, updated := TaskService.UpdateTask(data, reply);
      assert updated.Ok? == TaskService.UpdateOutcome(data, reply).Ok?;
      if updated.Ok? {
        tasks := Toggled(tasks, id);
      }
    }

    /** `startEditing(task)` */
    method StartEditing(task: ViewTask)
      modifies this
      ensures editingTask == Some(task)
      ensures tasks == old(tasks) && newTask == old(newTask) && isLoading == old(isLoading)
      ensures searchTerm == old(searchTerm) && filterStatus == old(filterStatus)
    {
      editingTask := Some(task);
    }

    /** `saveEdit()`: a blank title is refused without a request; otherwise
        the id, title and priority are sent and, once the update succeeds,
        every task with the edited id is replaced and editing ends. */
    method SaveEdit(reply: Reply<WriteResponse>) returns (payload: Option<Record>)
      modifies this
      ensures !CanSave(old(editingTask)) ==> payload.None? && tasks == old(tasks) && editingTask == old(editingTask)
      ensures CanSave(old(editingTask)) ==>
                var edited := old(editingTask).value;
                && payload == TaskService.UpdatePayload(EditData(edited))
                && (TaskService.UpdateOutcome(EditData(edited), reply).Ok? ==>
                      tasks == Replaced(old(tasks), edited) && editingTask == None)
                && (TaskService.UpdateOutcome(EditData(edited), reply).Err? ==>
                      tasks == old(tasks) && editingTask == old(editingTask))
      ensures newTask == old(newTask) && isLoading == old(isLoading)
      ensures searchTerm == old(searchTerm) && filterStatus == old(filterStatus)
    {
      if !CanSave(editingTask) {
        return None;
      }
      var edited := editingTask.value;
      var data := EditData(edited);
      var updated;
      payload, updated := TaskService.UpdateTask(data, reply);
      assert updated.Ok? == TaskService.UpdateOutcome(data, reply).Ok?;
      if updated.Ok? {
        tasks := Replaced(tasks, edited);
        editingTask := None;
      }
    }
  }
}
