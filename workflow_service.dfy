/** The workflow service: its field table, the parameters of a workflow fetch,
    the count of active workflows and the payload and outcome of a create
    (collection `workflow1`). */
module WorkflowService {
  import opened Js
  import opened Fields
  import opened Gateway

  const WorkflowFields: seq<FieldDescriptor> := [
    FieldDescriptor("Name", Updateable),
    FieldDescriptor("Tags", Updateable),
    FieldDescriptor("Owner", Updateable),
    FieldDescriptor("CreatedOn", System),
    FieldDescriptor("CreatedBy", System),
    FieldDescriptor("ModifiedOn", System),
    FieldDescriptor("ModifiedBy", System),
    FieldDescriptor("active", Updateable)
  ]

  const UpdateableFields: seq<string> := ["Name", "Tags", "Owner", "active"]
  const AllFields: seq<string> := AllNames(WorkflowFields)
  const SystemFields: seq<string> := ["CreatedOn", "CreatedBy", "ModifiedOn", "ModifiedBy"]

  const CreateFallback: string := "Failed to create workflow"

  /** The list above is the Updateable entries of the table, in table order. */
  lemma UpdateableFieldsFromTable()
    ensures UpdateableFields == UpdateableNames(WorkflowFields)
  {
  }

  lemma AllFieldsAreExactly()
    ensures AllFields == ["Name", "Tags", "Owner", "CreatedOn", "CreatedBy", "ModifiedOn", "ModifiedBy", "active"]
  {
  }

  /** `SystemFields` lists the System entries of the table, and none of them is updateable. */
  lemma SystemFieldsNeverUpdateable()
    ensures SystemFields == AllNames(WorkflowFields)[3..7]
    ensures forall i | 0 <= i < |WorkflowFields| :: WorkflowFields[i].visibility == System <==> 3 <= i < 7
    ensures forall n | n in SystemFields :: n !in UpdateableFields
  {
    AllFieldsAreExactly();
  }

  // ---------------------------------------------------------------- fetchWorkflows

  function SearchTermOf(options: Record): JsValue { GetOr(options, "searchTerm", Str("")) }
  function ActiveOnlyOf(options: Record): JsValue { GetOr(options, "activeOnly", Bool(false)) }

  function NameClause(searchTerm: JsValue): WhereClause
  {
    WhereClause("Name", Contains, [searchTerm])
  }

  const ActiveClause: WhereClause := WhereClause("active", ExactMatch, [Bool(true)])

  /** The filters a workflow fetch sends, in the order the service adds them. */
  function WorkflowWhere(options: Record): (w: seq<WhereClause>)
    ensures |w| == (if Truthy(SearchTermOf(options)) then 1 else 0) + (if Truthy(ActiveOnlyOf(options)) then 1 else 0)
    ensures Truthy(SearchTermOf(options)) <==> NameClause(SearchTermOf(options)) in w
    ensures Truthy(ActiveOnlyOf(options)) <==> ActiveClause in w
    ensures Truthy(SearchTermOf(options)) ==> w[0] == NameClause(SearchTermOf(options))
    ensures Truthy(ActiveOnlyOf(options)) ==> w[|w| - 1] == ActiveClause
  {
    (if Truthy(SearchTermOf(options)) then [NameClause(SearchTermOf(options))] else [])
    + (if Truthy(ActiveOnlyOf(options)) then [ActiveClause] else [])
  }

  /** The parameters of a workflow fetch: every field, newest first, one page of 100. */
  function FetchWorkflowsQuery(options: Record): (params: FetchParams)
    ensures params.fields == AllFields
    ensures params.orderBy == Some([OrderBy("ModifiedOn", "DESC")])
    ensures params.pagingInfo == PagingInfo(100, 0)
    ensures params.where.None? <==> !Truthy(SearchTermOf(options)) && !Truthy(ActiveOnlyOf(options))
    ensures params.where.Some? ==> params.where.value == WorkflowWhere(options)
  {
    FetchParams(AllFields, WhereList(WorkflowWhere(options)), Some([OrderBy("ModifiedOn", "DESC")]), PagingInfo(100, 0))
  }

  /** `fetchWorkflows(options)`: builds the parameters, adding to `where` step
      by step, and yields `response.data || []`. */
  method FetchWorkflows(options: Record, reply: Reply<FetchResponse>) returns (params: FetchParams, rows: Result<seq<Record>>)
    ensures params == FetchWorkflowsQuery(options)
    ensures rows == FetchOutcome(reply)
  {
    var searchTerm := SearchTermOf(options);
    var activeOnly := ActiveOnlyOf(options);
    params := FetchParams(AllFields, None, Some([OrderBy("ModifiedOn", "DESC")]), PagingInfo(100, 0));
    ghost var added: seq<WhereClause> := [];
    if Truthy(searchTerm) {
      params := params.(where := Some([WhereClause("Name", Contains, [searchTerm])]));
      added := [NameClause(searchTerm)];
    }
    assert params.where == WhereList(added);
    if Truthy(activeOnly) {
      var where := if params.where.Some? then params.where.value else [];
      params := params.(where := Some(where + [WhereClause("active", ExactMatch, [Bool(true)])]));
      added := added + [ActiveClause];
    }
    assert params.where == WhereList(added);
    assert added == WorkflowWhere(options);
    rows := FetchOutcome(reply);
  }

  // ---------------------------------------------------------------- getActiveWorkflowCount

  /** The fetch behind the count: the `Id` of up to 1000 workflows with `active` true. */
  const ActiveCountQuery: FetchParams := FetchParams(["Id"], Some([ActiveClause]), None, PagingInfo(1000, 0))

  /** `(response.data || []).length` */
  function ActiveCount(reply: Reply<FetchResponse>): (r: Result<nat>)
    ensures r.Err? <==> reply.Rejected?
    ensures r.Err? ==> r.error == NetworkError
    ensures r.Ok? && reply.response.data.Some? ==> r.value == |reply.response.data.value|
    ensures r.Ok? && reply.response.data.None? ==> r.value == 0
  {
    match FetchOutcome(reply)
    case Ok(rows) => Ok(|rows|)
    case Err(e) => Err(e)
  }

  method GetActiveWorkflowCount(reply: Reply<FetchResponse>) returns (params: FetchParams, count: Result<nat>)
    ensures params == ActiveCountQuery
    ensures params.where == Some([WhereClause("active", ExactMatch, [Bool(true)])])
    ensures count == ActiveCount(reply)
  {
    params := ActiveCountQuery;
    var rows := FetchOutcome(reply);
    if rows.Err? {
      return params, Err(rows.error);
    }
    count := Ok(|rows.value|);
  }

  // ---------------------------------------------------------------- createWorkflow

  /** The payload of `createWorkflow`: the updateable fields of `workflowData`
      that are not `undefined`, values unchanged, nothing else. */
  lemma CreatePayloadShape(workflowData: Record)
    ensures var payload := Projection(UpdateableFields, workflowData);
            && (forall k :: k in payload <==>
                  k in ["Name", "Tags", "Owner", "active"] && Get(workflowData, k) != Undefined)
            && (forall k | k in payload :: payload[k] == workflowData[k])
            && (forall k | k in SystemFields :: k !in payload)
  {
    SystemFieldsNeverUpdateable();
  }

  method CreateWorkflow(workflowData: Record, reply: Reply<WriteResponse>) returns (payload: Record, created: Result<JsValue>)
    ensures payload == Projection(UpdateableFields, workflowData)
    ensures created == WriteOutcome(reply, CreateFallback)
  {
    payload := ProjectInto(map[], UpdateableFields, workflowData);
    created := WriteOutcome(reply, CreateFallback);
  }
}
