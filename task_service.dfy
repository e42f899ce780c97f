/** The task service: its field table, the parameters of a task fetch, the
    statistics over all tasks, and the payloads and outcomes of create,
    update and delete (collection `task2`). */
module TaskService {
  import opened Js
  import opened Fields
  import opened Gateway
  import opened Seqs

  const TaskFields: seq<FieldDescriptor> := [
    FieldDescriptor("Name", Updateable),
    FieldDescriptor("Tags", Updateable),
    FieldDescriptor("Owner", Updateable),
    FieldDescriptor("CreatedOn", System),
    FieldDescriptor("CreatedBy", System),
    FieldDescriptor("ModifiedOn", System),
    FieldDescriptor("ModifiedBy", System),
    FieldDescriptor("title", Updateable),
    FieldDescriptor("completed", Updateable),
    FieldDescriptor("priority", Updateable)
  ]

  /** The fields a create or update may send. */
  const UpdateableFields: seq<string> := ["Name", "Tags", "Owner", "title", "completed", "priority"]

  /** The fields a fetch asks for. */
  const AllFields: seq<string> := AllNames(TaskFields)

  /** The audit fields the backend maintains. */
  const SystemFields: seq<string> := ["CreatedOn", "CreatedBy", "ModifiedOn", "ModifiedBy"]

  const CreateFallback: string := "Failed to create task"
  const UpdateFallback: string := "Failed to update task"
  const MissingIdMessage: string := "Task ID is required for update"

  /** The list above is the Updateable entries of the table, in table order. */
  lemma UpdateableFieldsFromTable()
    ensures UpdateableFields == UpdateableNames(TaskFields)
  {
  }

  lemma AllFieldsAreExactly()
    ensures AllFields == ["Name", "Tags", "Owner", "CreatedOn", "CreatedBy", "ModifiedOn",
                          "ModifiedBy", "title", "completed", "priority"]
  {
  }

  /** `SystemFields` lists the System entries of the table, in order. */
  lemma SystemFieldsAreTheSystemEntries()
    ensures SystemFields == AllNames(TaskFields)[3..7]
    ensures forall i | 0 <= i < |TaskFields| :: TaskFields[i].visibility == System <==> 3 <= i < 7
  {
    AllFieldsAreExactly();
  }

  /** No System field is updateable. */
  lemma SystemFieldsNeverUpdateable()
    ensures forall n | n in SystemFields :: n !in UpdateableFields
  {
  }

  // ---------------------------------------------------------------- fetchTasks

  function SearchTermOf(options: Record): JsValue { GetOr(options, "searchTerm", Str("")) }
  function FilterStatusOf(options: Record): JsValue { GetOr(options, "filterStatus", Str("all")) }
  function PriorityOf(options: Record): JsValue { GetOr(options, "priority", Str("")) }

  function TitleClause(searchTerm: JsValue): WhereClause
  {
    WhereClause("title", Contains, [searchTerm])
  }

  function CompletedClause(filterStatus: JsValue): WhereClause
  {
    WhereClause("completed", ExactMatch, [Bool(filterStatus == Str("completed"))])
  }

  function PriorityClause(priority: JsValue): WhereClause
  {
    WhereClause("priority", ExactMatch, [priority])
  }

  /** The filters a task fetch sends, in the order the service adds them. */
  function TaskWhere(options: Record): (w: seq<WhereClause>)
    ensures |w| == (if Truthy(SearchTermOf(options)) then 1 else 0)
                 + (if FilterStatusOf(options) != Str("all") then 1 else 0)
                 + (if Truthy(PriorityOf(options)) then 1 else 0)
    ensures Truthy(SearchTermOf(options)) <==> TitleClause(SearchTermOf(options)) in w
    ensures FilterStatusOf(options) != Str("all") <==> CompletedClause(FilterStatusOf(options)) in w
    ensures Truthy(PriorityOf(options)) <==> PriorityClause(PriorityOf(options)) in w
    ensures Truthy(SearchTermOf(options)) ==> w[0] == TitleClause(SearchTermOf(options))
    ensures FilterStatusOf(options) != Str("all") ==>
            w[if Truthy(SearchTermOf(options)) then 1 else 0] == CompletedClause(FilterStatusOf(options))
    ensures Truthy(PriorityOf(options)) ==> w[|w| - 1] == PriorityClause(PriorityOf(options))
  {
    (if Truthy(SearchTermOf(options)) then [TitleClause(SearchTermOf(options))] else [])
    + (if FilterStatusOf(options) != Str("all") then [CompletedClause(FilterStatusOf(options))] else [])
    + (if Truthy(PriorityOf(options)) then [PriorityClause(PriorityOf(options))] else [])
  }

  /** The parameters of a task fetch: every field, newest first, one page of 100. */
  function FetchTasksQuery(options: Record): (params: FetchParams)
    ensures params.fields == AllFields
    ensures params.orderBy == Some([OrderBy("ModifiedOn", "DESC")])
    ensures params.pagingInfo == PagingInfo(100, 0)
    ensures params.where.None? <==>
            !Truthy(SearchTermOf(options)) && FilterStatusOf(options) == Str("all") && !Truthy(PriorityOf(options))
    ensures params.where.Some? ==> params.where.value == TaskWhere(options)
  {
    FetchParams(AllFields, WhereList(TaskWhere(options)), Some([OrderBy("ModifiedOn", "DESC")]), PagingInfo(100, 0))
  }

  /** `fetchTasks(options)`: builds the parameters, adding to `where` step by
      step, and yields `response.data || []`. */
  method FetchTasks(options: Record, reply: Reply<FetchResponse>) returns (params: FetchParams, rows: Result<seq<Record>>)
    ensures params == FetchTasksQuery(options)
    ensures rows == FetchOutcome(reply)
  {
    var searchTerm := SearchTermOf(options);
    var filterStatus := FilterStatusOf(options);
    var priority := PriorityOf(options);
    params := FetchParams(AllFields, None, Some([OrderBy("ModifiedOn", "DESC")]), PagingInfo(100, 0));
    ghost var added: seq<WhereClause> := [];
    if Truthy(searchTerm) {
      params := params.(where := Some([WhereClause("title", Contains, [searchTerm])]));
      added := [TitleClause(searchTerm)];
    }
    assert params.where == WhereList(added);
    if filterStatus != Str("all") {
      var completedValue := filterStatus == Str("completed");
      var where := if params.where.Some? then params.where.value else [];
      params := params.(where := Some(where + [WhereClause("completed", ExactMatch, [Bool(completedValue)])]));
      added := added + [CompletedClause(filterStatus)];
    }
    assert params.where == WhereList(added);
    if Truthy(priority) {
      var where := if params.where.Some? then params.where.value else [];
      params := params.(where := Some(where + [WhereClause("priority", ExactMatch, [priority])]));
      added := added + [PriorityClause(priority)];
    }
    assert params.where == WhereList(added);
    assert added == TaskWhere(options);
    rows := FetchOutcome(reply);
  }

  /** The defaults of `fetchTasks` replace only `undefined`: an explicit
      `filterStatus: null` is not 'all', so it sends the `completed = false`
      filter, while an `undefined` one sends no filter at all. */
  lemma NullStatusIsNotDefaulted()
    ensures FetchTasksQuery(map["filterStatus" := Null]).where == Some([WhereClause("completed", ExactMatch, [Bool(false)])])
    ensures FetchTasksQuery(map["filterStatus" := Undefined]).where == None
  {
    var explicit: Record := map["filterStatus" := Null];
    assert SearchTermOf(explicit) == Str("") && PriorityOf(explicit) == Str("");
    assert FilterStatusOf(explicit) == Null;
    assert TaskWhere(explicit) == [CompletedClause(Null)];
    var omitted: Record := map["filterStatus" := Undefined];
    assert SearchTermOf(omitted) == Str("") && PriorityOf(omitted) == Str("");
    assert FilterStatusOf(omitted) == Str("all");
    assert TaskWhere(omitted) == [];
  }

  // ---------------------------------------------------------------- getTaskStats

  datatype TaskStats = TaskStats(tasksCompleted: nat, highPriorityCount: nat, totalTasks: nat, productivity: nat)

  /** The test of the statistics filter: `task => task.completed`. */
  predicate Done(task: Record)
  {
    Truthy(Get(task, "completed"))
  }

  /** The number of completed rows, counted one row at a time. */
  function CountCompleted(tasks: seq<Record>): (c: nat)
    ensures c <= |tasks|
    ensures c == 0 <==> forall i | 0 <= i < |tasks| :: !Done(tasks[i])
    ensures c == |tasks| <==> forall i | 0 <= i < |tasks| :: Done(tasks[i])
  {
    if tasks == [] then 0
    else
      var rest := CountCompleted(tasks[1..]);
      assert forall i | 1 <= i < |tasks| :: tasks[i] == tasks[1..][i - 1];
      (if Done(tasks[0]) then 1 else 0) + rest
  }

  /** The count is the length of `tasks.filter(task => task.completed)`. */
  lemma {:induction false} CountCompletedIsFilterLength(tasks: seq<Record>)
    ensures CountCompleted(tasks) == |Filter(tasks, Done)|
  {
    if tasks != [] {
      CountCompletedIsFilterLength(tasks[1..]);
      assert Filter(tasks, Done) == (if Done(tasks[0]) then [tasks[0]] else []) + Filter(tasks[1..], Done);
    }
  }

  /** `Math.round((completed / total) * 100)` for a positive total, else 0; the
      rounding is done on exact rationals as floor(100 * completed / total + 1/2). */
  function Productivity(completed: nat, total: nat): (p: nat)
    requires completed <= total
    ensures p <= 100
    ensures total == 0 ==> p == 0
    ensures completed == 0 ==> p == 0
    ensures 0 < completed == total ==> p == 100
    ensures total > 0 ==> 2 * total * p <= 200 * completed + total < 2 * total * (p + 1)
  {
    if total > 0 then
      var p := (200 * completed + total) / (2 * total);
      RoundedPercentBounds(completed, total, p);
      p
    else 0
  }

  lemma RoundedPercentBounds(completed: nat, total: nat, p: int)
    requires completed <= total && total > 0
    requires p == (200 * completed + total) / (2 * total)
    ensures 0 <= p <= 100
    ensures completed == 0 ==> p == 0
    ensures completed == total ==> p == 100
    ensures 2 * total * p <= 200 * completed + total < 2 * total * (p + 1)
  {
    var d := 2 * total;
    var n := 200 * completed + total;
    DivBounds(n, d);
    assert n < d * 101;
    MulCancelLess(d, p, 101);
    if completed == 0 {
      MulCancelLess(d, p, 1);
    }
    if completed == total {
      assert d * 100 < d * (p + 1);
      MulCancelLess(d, 100, p + 1);
    }
  }

  lemma DivBounds(n: int, d: int)
    requires n >= 0 && d > 0
    ensures n / d >= 0
    ensures d * (n / d) <= n < d * (n / d + 1)
  {
  }

  lemma MulCancelLess(d: int, a: int, b: int)
    requires d > 0 && d * a < d * b
    ensures a < b
  {
  }

  /** The statistics of `getTaskStats` from the rows of its two fetches. */
  function StatsOf(tasks: seq<Record>, highPriority: seq<Record>): (s: TaskStats)
    ensures s.totalTasks == |tasks| && s.highPriorityCount == |highPriority|
    ensures s.tasksCompleted == CountCompleted(tasks) <= s.totalTasks
    ensures s.productivity <= 100
    ensures s.totalTasks > 0 ==>
            2 * s.totalTasks * s.productivity <= 200 * s.tasksCompleted + s.totalTasks < 2 * s.totalTasks * (s.productivity + 1)
    ensures s.totalTasks == 0 ==> s.productivity == 0
    ensures s.tasksCompleted == 0 ==> s.productivity == 0
    ensures 0 < s.tasksCompleted == s.totalTasks ==> s.productivity == 100
  {
    var completed := CountCompleted(tasks);
    TaskStats(completed, |highPriority|, |tasks|, Productivity(completed, |tasks|))
  }

  /** The first fetch of `getTaskStats`: the `completed` field of up to 1000 tasks. */
  const TotalTasksQuery: FetchParams := FetchParams(["completed"], None, None, PagingInfo(1000, 0))

  /** The second fetch: the `priority` field of up to 1000 high-priority tasks. */
  const HighPriorityQuery: FetchParams :=
    FetchParams(["priority"], Some([WhereClause("priority", ExactMatch, [Str("high")])]), None, PagingInfo(1000, 0))

  /** `getTaskStats()`: two fetches in sequence; a rejected first fetch stops
      before the second is issued. */
  method GetTaskStats(tasksReply: Reply<FetchResponse>, highReply: Reply<FetchResponse>)
    returns (queries: seq<FetchParams>, stats: Result<TaskStats>)
    ensures tasksReply.Rejected? ==> queries == [TotalTasksQuery] && stats == Err(NetworkError)
    ensures tasksReply.Answered? ==> queries == [TotalTasksQuery, HighPriorityQuery]
    ensures tasksReply.Answered? && highReply.Rejected? ==> stats == Err(NetworkError)
    ensures tasksReply.Answered? && highReply.Answered? ==>
            stats == Ok(StatsOf(FetchOutcome(tasksReply).value, FetchOutcome(highReply).value))
  {
    queries := [TotalTasksQuery];
    var tasks := FetchOutcome(tasksReply);
    if tasks.Err? {
      return queries, Err(tasks.error);
    }
    queries := queries + [HighPriorityQuery];
    var high := FetchOutcome(highReply);
    if high.Err? {
      return queries, Err(high.error);
    }
    stats := Ok(StatsOf(tasks.value, high.value));
  }

  // ---------------------------------------------------------------- createTask

  /** The payload of `createTask`: the updateable fields of `taskData` that are
      not `undefined`, values unchanged, nothing else. */
  lemma CreatePayloadShape(taskData: Record)
    ensures var payload := Projection(UpdateableFields, taskData);
            && (forall k :: k in payload <==>
                  k in ["Name", "Tags", "Owner", "title", "completed", "priority"] && Get(taskData, k) != Undefined)
            && (forall k | k in payload :: payload[k] == taskData[k])
            && (forall k | k in SystemFields :: k !in payload)
  {
    SystemFieldsNeverUpdateable();
  }

  method CreateTask(taskData: Record, reply: Reply<WriteResponse>) returns (payload: Record, created: Result<JsValue>)
    ensures payload == Projection(UpdateableFields, taskData)
    ensures created == WriteOutcome(reply, CreateFallback)
  {
    payload := ProjectInto(map[], UpdateableFields, taskData);
    created := WriteOutcome(reply, CreateFallback);
  }

  // ---------------------------------------------------------------- updateTask

  /** The payload of `updateTask`: none at all when `Id` is falsy, otherwise
      `Id` followed by the projected updateable fields. */
  function UpdatePayload(taskData: Record): (payload: Option<Record>)
    ensures payload.None? <==> !Truthy(Get(taskData, "Id"))
    ensures payload.Some? ==> "Id" in payload.value && payload.value["Id"] == taskData["Id"]
  {
    if !Truthy(Get(taskData, "Id")) then None
    else Some(map["Id" := taskData["Id"]] + Projection(UpdateableFields, taskData))
  }

  /** Besides `Id`, an update payload holds exactly the updateable fields of
      `taskData` that are not `undefined`, values unchanged. */
  lemma UpdatePayloadKeys(taskData: Record)
    requires UpdatePayload(taskData).Some?
    ensures var payload := UpdatePayload(taskData).value;
            && (forall k | k in payload && k != "Id" ::
                  k in UpdateableFields && k in taskData && payload[k] == taskData[k] && taskData[k] != Undefined)
            && (forall k | k in UpdateableFields && Get(taskData, k) != Undefined :: k in payload)
  {
  }

  /** The result of `updateTask`: the id guard comes first, then the response. */
  function UpdateOutcome(taskData: Record, reply: Reply<WriteResponse>): (r: Result<JsValue>)
    ensures !Truthy(Get(taskData, "Id")) ==> r == Err(ValidationError(MissingIdMessage))
    ensures Truthy(Get(taskData, "Id")) ==> r == WriteOutcome(reply, UpdateFallback)
  {
    if !Truthy(Get(taskData, "Id")) then Err(ValidationError(MissingIdMessage))
    else WriteOutcome(reply, UpdateFallback)
  }

  /** An update payload never carries a System field. */
  lemma UpdatePayloadHasNoSystemField(taskData: Record)
    requires UpdatePayload(taskData).Some?
    ensures forall k | k in SystemFields :: k !in UpdatePayload(taskData).value
  {
    SystemFieldsNeverUpdateable();
    forall k | k in SystemFields ensures k !in UpdatePayload(taskData).value {
      assert k != "Id";
    }
  }

  /** An id of 0 is falsy, so such an update is refused whatever the backend would say. */
  lemma ZeroIdIsRefused(taskData: Record, reply: Reply<WriteResponse>)
    requires Get(taskData, "Id") == Num(0)
    ensures UpdatePayload(taskData).None?
    ensures UpdateOutcome(taskData, reply) == Err(ValidationError(MissingIdMessage))
  {
  }

  method UpdateTask(taskData: Record, reply: Reply<WriteResponse>) returns (payload: Option<Record>, updated: Result<JsValue>)
    ensures payload == UpdatePayload(taskData)
    ensures updated == UpdateOutcome(taskData, reply)
  {
    if !Truthy(Get(taskData, "Id")) {
      return None, Err(ValidationError(MissingIdMessage));
    }
    var filtered := ProjectInto(map["Id" := taskData["Id"]], UpdateableFields, taskData);
    payload := Some(filtered);
    updated := WriteOutcome(reply, UpdateFallback);
  }

  // ---------------------------------------------------------------- deleteTask

  /** `response && response.success` */
  function SuccessFlag(response: JsValue): (v: JsValue)
    ensures !Truthy(response) ==> v == response
    ensures response.Obj? ==> v == Get(response.props, "success")
  {
    if !Truthy(response) then response
    else match Prop(response, "success") case Some(flag) => flag case None => Undefined
  }

  /** The result of `deleteTask`: it fails only when the SDK call rejects; a
      response that reports no success still resolves, with that flag. */
  function DeleteOutcome(reply: Reply<JsValue>): (r: Result<JsValue>)
    ensures r.Err? <==> reply.Rejected?
    ensures r.Err? ==> r.error == NetworkError
    ensures r.Ok? ==> r.value == SuccessFlag(reply.response)
  {
    match reply
    case Rejected => Err(NetworkError)
    case Answered(response) => Ok(SuccessFlag(response))
  }

  /** `deleteTask(taskId)`: asks to delete exactly the one given id; there is no id guard. */
  method DeleteTask(taskId: JsValue, reply: Reply<JsValue>) returns (recordIds: seq<JsValue>, deleted: Result<JsValue>)
    ensures recordIds == [taskId]
    ensures deleted == DeleteOutcome(reply)
  {
    recordIds := [taskId];
    deleted := DeleteOutcome(reply);
  }
}
