/** The circle listing and counting queries of moove's JDBC circle
    repository: how the optional name, except, active/status and page
    filters become SQL placeholders and parameter arrays, which count or list
    statement each filter value chooses, what the "active" and "inactive"
    circle predicates mean over the deployments table, and how pages are
    assembled from what the database returns.

    A statement is modelled by the circles it selects and the sequence of its
    `?` placeholders, each named by the value it must be bound to; the SQL
    text itself, `ILIKE` matching and the database are not modelled. */
module CircleRepository {
  import opened Wrappers

  // ---------------------------------------------------------------------
  // Pages

  datatype PageRequest = PageRequest(page: int, size: int)

  /** `PageRequest.offset()`: the number of rows before the page. */
  function Offset(p: PageRequest): int
  {
    p.size * p.page
  }

  datatype Page<T> = Page(content: seq<T>, pageNumber: int, size: int, totalItems: int)

  // ---------------------------------------------------------------------
  // Circles, deployments and the circle predicates

  datatype DeploymentStatus = NotDeployed | Deploying | Deployed | DeployFailed | Undeploying | Undeployed

  datatype MatcherType = Regular | Percentage

  /** A row of the circles table; `authorId` is its `user_id`, which may be
      NULL. */
  datatype Circle = Circle(
    id: string,
    name: string,
    workspaceId: string,
    matcherType: MatcherType,
    defaultCircle: bool,
    authorId: Option<string>)

  /** A row of the deployments table. */
  datatype CircleDeployment = CircleDeployment(id: string, circleId: string, workspaceId: string, status: DeploymentStatus)

  /** `deployments.status NOT IN ('NOT_DEPLOYED', 'DEPLOY_FAILED')`: the
      `circle_active` column and the filter of the active queries. */
  predicate ActiveStatus(s: DeploymentStatus)
  {
    s != NotDeployed && s != DeployFailed
  }

  /** `d.status IN ('DEPLOYING', 'DEPLOYED', 'UNDEPLOYING')`. */
  predicate InFlightStatus(s: DeploymentStatus)
  {
    s == Deploying || s == Deployed || s == Undeploying
  }

  predicate HasDeployment(c: Circle, deployments: seq<CircleDeployment>)
  {
    exists d :: d in deployments && d.circleId == c.id
  }

  /** The inactive queries' sub-select: circles with a deployment in flight
      in the workspace. */
  function InFlightCircleIds(deployments: seq<CircleDeployment>, workspaceId: string): set<string>
  {
    set d | d in deployments && InFlightStatus(d.status) && d.workspaceId == workspaceId :: d.circleId
  }

  /** A circle the active queries return: joined (inner join) with some
      deployment whose status is active. */
  predicate IsActiveCircle(c: Circle, deployments: seq<CircleDeployment>): (r: bool)
    ensures r ==> HasDeployment(c, deployments)
    ensures !r ==> forall d :: d in deployments && d.circleId == c.id ==> (d.status == NotDeployed || d.status == DeployFailed)
  {
    exists d :: d in deployments && d.circleId == c.id && ActiveStatus(d.status)
  }

  /** A circle the inactive queries return: `deployments.circle_id IS NULL OR
      circles.id NOT IN (sub-select)`. */
  predicate IsInactiveCircle(c: Circle, deployments: seq<CircleDeployment>, workspaceId: string): (r: bool)
    ensures !r ==> exists d :: d in deployments && d.circleId == c.id && d.workspaceId == workspaceId && InFlightStatus(d.status)
    ensures (forall d :: d in deployments && d.circleId == c.id ==> (d.status == NotDeployed || d.status == DeployFailed || d.status == Undeployed)) ==> r
  {
    !HasDeployment(c, deployments) || c.id !in InFlightCircleIds(deployments, workspaceId)
  }

  /** The circles the inactive percentage count counts: `d.circle_id IS NULL
      AND c.id NOT IN (...)`, the sub-select without a workspace. */
  predicate IsCountedInactivePercentage(c: Circle, deployments: seq<CircleDeployment>)
  {
    !HasDeployment(c, deployments)
    && c.id !in (set d | d in deployments && InFlightStatus(d.status) :: d.circleId)
  }

  /** The circles the active percentage count counts: joined with some
      deployment and with no deployment NOT_DEPLOYED or UNDEPLOYED. */
  predicate IsCountedActivePercentage(c: Circle, deployments: seq<CircleDeployment>)
  {
    HasDeployment(c, deployments)
    && forall d :: d in deployments && d.circleId == c.id ==> d.status != NotDeployed && d.status != Undeployed
  }

  /** An inactive circle is exactly one with no deployment in flight in the
      workspace: the `IS NULL` alternative adds nothing. */
  lemma InactiveMeansNothingInFlight(c: Circle, deployments: seq<CircleDeployment>, workspaceId: string)
    ensures IsInactiveCircle(c, deployments, workspaceId) <==>
            forall d :: d in deployments && d.circleId == c.id && d.workspaceId == workspaceId ==> !InFlightStatus(d.status)
  {
    if !IsInactiveCircle(c, deployments, workspaceId) {
      var d :| d in deployments && InFlightStatus(d.status) && d.workspaceId == workspaceId && d.circleId == c.id;
    }
  }

  /** Every circle is listed as active, as inactive, or both. */
  lemma EveryCircleIsActiveOrInactive(c: Circle, deployments: seq<CircleDeployment>)
    ensures IsActiveCircle(c, deployments) || IsInactiveCircle(c, deployments, c.workspaceId)
  {
    if !IsInactiveCircle(c, deployments, c.workspaceId) {
      var d :| d in deployments && InFlightStatus(d.status) && d.workspaceId == c.workspaceId && d.circleId == c.id;
      assert ActiveStatus(d.status);
    }
  }

  /** The two predicates overlap: a circle whose only deployment is
      UNDEPLOYED is both active and inactive. */
  lemma UndeployedCircleIsBothActiveAndInactive(c: Circle, d: CircleDeployment)
    requires d.circleId == c.id && d.workspaceId == c.workspaceId && d.status == Undeployed
    ensures IsActiveCircle(c, [d]) && IsInactiveCircle(c, [d], c.workspaceId)
  {
    assert d in [d];
    assert forall x :: x in [d] ==> x == d;
  }

  /** The listing's `circle_active` column: `CASE WHEN deployments.status NOT
      IN ('NOT_DEPLOYED', 'DEPLOY_FAILED') THEN TRUE ELSE FALSE END`. Without a
      deployment (left join) the status is NULL, the condition is unknown and
      the column is false. */
  function CircleActiveColumn(status: Option<DeploymentStatus>): (active: bool)
    ensures active <==> status.Some? && ActiveStatus(status.value)
    ensures status == Some(Undeployed) ==> active
  {
    match status
    case None => false
    case Some(s) => !(s == NotDeployed || s == DeployFailed)
  }

  datatype CircleGrade = ActiveGrade | InactiveGrade

  /** `CASE deployments.status WHEN 'DEPLOYED' THEN 'ACTIVE' ELSE 'INACTIVE'`;
      a circle without a deployment (left join) has status NULL. */
  function StatusGrade(status: Option<DeploymentStatus>): (g: CircleGrade)
    ensures g == ActiveGrade <==> status == Some(Deployed)
    ensures g == ActiveGrade ==> CircleActiveColumn(status) && InFlightStatus(status.value)
  {
    match status
    case Some(Deployed) => ActiveGrade
    case _ => InactiveGrade
  }

  // ---------------------------------------------------------------------
  // Placeholders and parameters

  datatype Param = Text(text: string) | Number(n: int)

  /** What a `?` placeholder must be bound to. */
  datatype Placeholder =
    | SubqueryWorkspace  // `d.workspace_id = ?` inside a sub-select
    | NameLike           // `name ILIKE ?`
    | ExceptId           // `circles.id <> ?`
    | Workspace          // `workspace_id = ?`
    | Limit              // `LIMIT ?`
    | OffsetRows         // `OFFSET ?`

  /** The filter values a statement is run with. */
  datatype Bindings = Bindings(name: Option<string>, except: Option<string>, workspaceId: string, page: Option<PageRequest>)

  /** `"%$name%"`. */
  function NamePattern(name: string): string
  {
    "%" + name + "%"
  }

  predicate BoundTo(p: Placeholder, v: Param, b: Bindings)
  {
    match p
    case SubqueryWorkspace => v == Text(b.workspaceId)
    case Workspace => v == Text(b.workspaceId)
    case NameLike => b.name.Some? && v == Text(NamePattern(b.name.value))
    case ExceptId => b.except.Some? && v == Text(b.except.value)
    case Limit => b.page.Some? && v == Number(b.page.value.size)
    case OffsetRows => b.page.Some? && v == Number(Offset(b.page.value))
  }

  /** JDBC binds the i-th parameter to the i-th placeholder: the parameters
      line up with the placeholders when there are as many and each is the
      value its placeholder asks for. */
  predicate LinesUp(placeholders: seq<Placeholder>, params: seq<Param>, b: Bindings)
  {
    |placeholders| == |params| && forall i :: 0 <= i < |params| ==> BoundTo(placeholders[i], params[i], b)
  }

  /** Placeholders and bindings determine the parameter array. */
  lemma LinesUpDeterminesParameters(placeholders: seq<Placeholder>, p1: seq<Param>, p2: seq<Param>, b: Bindings)
    requires LinesUp(placeholders, p1, b) && LinesUp(placeholders, p2, b)
    ensures p1 == p2
  {
    forall i | 0 <= i < |p1| ensures p1[i] == p2[i] {
      assert BoundTo(placeholders[i], p1[i], b) && BoundTo(placeholders[i], p2[i], b);
    }
  }

  function NameClause(name: Option<string>): seq<Placeholder>
  {
    if name.Some? then [NameLike] else []
  }

  function ExceptClause(except: Option<string>): seq<Placeholder>
  {
    if except.Some? then [ExceptId] else []
  }

  function PagingClause(paged: bool): seq<Placeholder>
  {
    if paged then [Limit, OffsetRows] else []
  }

  /** The placeholders a `createParametersArray` array fills. */
  function ParametersLayout(name: Option<string>, active: Option<bool>, paged: bool): seq<Placeholder>
  {
    (if active == Some(false) then [SubqueryWorkspace] else []) + NameClause(name) + [Workspace] + PagingClause(paged)
  }

  /** The placeholders a `createParametersSimpleCircleArray` array fills. */
  function SimpleParametersLayout(name: Option<string>, except: Option<string>, paged: bool): seq<Placeholder>
  {
    NameClause(name) + ExceptClause(except) + [Workspace] + PagingClause(paged)
  }

  /** `createParametersArray`. */
  method CreateParametersArray(name: Option<string>, active: Option<bool>, workspaceId: string, pageRequest: Option<PageRequest>)
    returns (parameters: seq<Param>)
    ensures LinesUp(ParametersLayout(name, active, pageRequest.Some?), parameters, Bindings(name, None, workspaceId, pageRequest))
  {
    parameters := [];
    if active.Some? && !active.value {
      parameters := parameters + [Text(workspaceId)];
    }
    if name.Some? {
      parameters := parameters + [Text(NamePattern(name.value))];
    }
    parameters := parameters + [Text(workspaceId)];
    if pageRequest.Some? {
      parameters := parameters + [Number(pageRequest.value.size)];
      parameters := parameters + [Number(Offset(pageRequest.value))];
    }
  }

  /** `createParametersSimpleCircleArray`. */
  method CreateParametersSimpleCircleArray(name: Option<string>, except: Option<string>, workspaceId: string, pageRequest: Option<PageRequest>)
    returns (parameters: seq<Param>)
    ensures LinesUp(SimpleParametersLayout(name, except, pageRequest.Some?), parameters, Bindings(name, except, workspaceId, pageRequest))
  {
    parameters := [];
    if name.Some? {
      parameters := parameters + [Text(NamePattern(name.value))];
    }
    if except.Some? {
      parameters := parameters + [Text(except.value)];
    }
    parameters := parameters + [Text(workspaceId)];
    if pageRequest.Some? {
      parameters := parameters + [Number(pageRequest.value.size)];
      parameters := parameters + [Number(Offset(pageRequest.value))];
    }
  }

  // ---------------------------------------------------------------------
  // Statements

  /** Which circles a statement returns or counts. */
  datatype Selection =
    | AllCircles
    | AuthoredCircles           // `INNER JOIN users`: circles whose author row exists
    | ActiveCircles
    | InactiveCircles
    | ActivePercentageCount     // the active percentage count's own predicate
    | InactivePercentageCount   // the inactive percentage count's own predicate

  /** Whether a circle of the workspace is among those a selection returns. */
  predicate Selects(s: Selection, c: Circle, deployments: seq<CircleDeployment>)
  {
    match s
    case AllCircles => true
    case AuthoredCircles => c.authorId.Some?
    case ActiveCircles => IsActiveCircle(c, deployments)
    case InactiveCircles => IsInactiveCircle(c, deployments, c.workspaceId)
    case ActivePercentageCount => IsCountedActivePercentage(c, deployments)
    case InactivePercentageCount => IsCountedInactivePercentage(c, deployments)
  }

  datatype Statement = Statement(selection: Selection, percentageOnly: bool, placeholders: seq<Placeholder>)

  /** Whether a circle of the workspace is among those a statement returns:
      its selection, and `matcher_type = 'PERCENTAGE'` when it is limited to
      percentage circles. */
  predicate StatementSelects(st: Statement, c: Circle, deployments: seq<CircleDeployment>)
  {
    Selects(st.selection, c, deployments) && (st.percentageOnly ==> c.matcherType == Percentage)
  }

  /** A count statement with the `active` argument its caller passes to
      `createParametersArray`. */
  datatype CountCall = CountCall(statement: Statement, parametersActive: Option<bool>)

  /** `createCircleQuery`: joins the users table with an inner join. */
  function CircleQuery(name: Option<string>): (s: Statement)
    ensures !s.percentageOnly
    ensures forall c, deployments :: Selects(s.selection, c, deployments) <==> c.authorId.Some?
    ensures s.placeholders == ParametersLayout(name, None, false)
  {
    Statement(AuthoredCircles, false, NameClause(name) + [Workspace])
  }

  /** `createActiveCircleQuery`. */
  function ActiveCircleQuery(name: Option<string>, isPercentage: Option<bool>): (s: Statement)
    ensures s.percentageOnly <==> isPercentage == Some(true)
    ensures s.placeholders == ParametersLayout(name, Some(true), false)
  {
    Statement(ActiveCircles, isPercentage == Some(true), NameClause(name) + [Workspace])
  }

  /** `createInactiveCircleQuery`: the sub-select's placeholder comes first. */
  function InactiveCircleQuery(name: Option<string>, isPercentage: Option<bool>): (s: Statement)
    ensures s.percentageOnly <==> isPercentage == Some(true)
    ensures s.placeholders == ParametersLayout(name, Some(false), false)
  {
    Statement(InactiveCircles, isPercentage == Some(true), [SubqueryWorkspace] + NameClause(name) + [Workspace])
  }

  /** `createSimpleCircleActiveQuery`. */
  function SimpleCircleActiveQuery(name: Option<string>, except: Option<string>): (s: Statement)
    ensures !s.percentageOnly
    ensures s.placeholders == SimpleParametersLayout(name, except, false)
  {
    Statement(ActiveCircles, false, NameClause(name) + ExceptClause(except) + [Workspace])
  }

  /** `createSimpleCircleQuery`. */
  function SimpleCircleQuery(name: Option<string>, except: Option<string>): (s: Statement)
    ensures !s.percentageOnly
    ensures s.placeholders == SimpleParametersLayout(name, except, false)
  {
    Statement(AllCircles, false, NameClause(name) + ExceptClause(except) + [Workspace])
  }

  function WithLimit(s: Statement): Statement
  {
    s.(placeholders := s.placeholders + [Limit, OffsetRows])
  }

  /** What the `active` filter of the circle listing means: no value lists
      the circles with an author, true the active ones, false the inactive
      ones. */
  function ActiveFilter(active: Option<bool>): Selection
  {
    match active
    case None => AuthoredCircles
    case Some(true) => ActiveCircles
    case Some(false) => InactiveCircles
  }

  /** `createQuery(name, active)`. */
  function CreateQuery(name: Option<string>, active: Option<bool>): (s: Statement)
    ensures s.selection == ActiveFilter(active)
    ensures !s.percentageOnly
  {
    if active.None? then CircleQuery(name)
    else if active.value then ActiveCircleQuery(name, None)
    else InactiveCircleQuery(name, None)
  }

  /** The unfiltered listing joins the users table with an inner join and
      the filtered ones with a left join: a circle without an author is never
      listed unfiltered, yet it is listed as active or as inactive. */
  lemma AuthorlessCircleIsListedOnlyWhenFiltered(c: Circle, deployments: seq<CircleDeployment>, name: Option<string>)
    requires c.authorId.None?
    ensures !StatementSelects(CreateQuery(name, None), c, deployments)
    ensures StatementSelects(CreateQuery(name, Some(true)), c, deployments) ||
            StatementSelects(CreateQuery(name, Some(false)), c, deployments)
  {
    EveryCircleIsActiveOrInactive(c, deployments);
  }

  /** `createQueryLimit(name, active)`. */
  function CreateQueryLimit(name: Option<string>, active: Option<bool>): (s: Statement)
    ensures s.selection == ActiveFilter(active)
    ensures s.placeholders == ParametersLayout(name, active, true)
  {
    WithLimit(CreateQuery(name, active))
  }

  /** What the `status` filter of the simple circle listing means, as the
      list statement reads it: true lists the active circles, anything else
      every circle. */
  function StatusFilter(status: Option<bool>): Selection
  {
    if status == Some(true) then ActiveCircles else AllCircles
  }

  /** `createQuery(name, except, status)`. */
  function CreateSimpleQuery(name: Option<string>, except: Option<string>, status: Option<bool>): (s: Statement)
    ensures s.selection == StatusFilter(status)
  {
    if status == Some(true) then SimpleCircleActiveQuery(name, except) else SimpleCircleQuery(name, except)
  }

  /** `createQueryLimit(name, except, status)`. */
  function CreateSimpleQueryLimit(name: Option<string>, except: Option<string>, status: Option<bool>): (s: Statement)
    ensures s.selection == StatusFilter(status)
    ensures s.placeholders == SimpleParametersLayout(name, except, true)
  {
    WithLimit(CreateSimpleQuery(name, except, status))
  }

  // ---------------------------------------------------------------------
  // Count statements

  /** `executeCircleCountQuery`. */
  function CircleCountQuery(name: Option<string>): (c: CountCall)
    ensures c.statement.selection == CircleQuery(name).selection
    ensures c.statement.placeholders == ParametersLayout(name, c.parametersActive, false)
  {
    CountCall(Statement(AuthoredCircles, false, NameClause(name) + [Workspace]), Some(true))
  }

  /** `executeActiveCircleCountQuery`. */
  function ActiveCircleCountQuery(name: Option<string>): (c: CountCall)
    ensures c.statement.selection == ActiveCircleQuery(name, None).selection
    ensures c.statement.placeholders == ParametersLayout(name, c.parametersActive, false)
  {
    CountCall(Statement(ActiveCircles, false, NameClause(name) + [Workspace]), Some(true))
  }

  /** `executeInactiveCircleCountQuery`. */
  function InactiveCircleCountQuery(name: Option<string>): (c: CountCall)
    ensures c.statement.selection == InactiveCircleQuery(name, None).selection
    ensures c.statement.placeholders == ParametersLayout(name, c.parametersActive, false)
  {
    CountCall(Statement(InactiveCircles, false, [SubqueryWorkspace] + NameClause(name) + [Workspace]), Some(false))
  }

  /** `executeCountQuery(name, active)`: the count agrees with the list on
      which circles it counts, and its parameters line up. */
  function ExecuteCountQuery(name: Option<string>, active: Option<bool>): (c: CountCall)
    ensures c.statement.selection == ActiveFilter(active) == CreateQuery(name, active).selection
    ensures c.statement.placeholders == ParametersLayout(name, c.parametersActive, false)
  {
    if active.Some? then
      if active.value then ActiveCircleCountQuery(name) else InactiveCircleCountQuery(name)
    else CircleCountQuery(name)
  }

  /** `executeCircleSimpleCountQuery`. */
  function CircleSimpleCountQuery(name: Option<string>, except: Option<string>): (s: Statement)
    ensures s.selection == SimpleCircleQuery(name, except).selection
    ensures s.placeholders == SimpleParametersLayout(name, except, false)
  {
    Statement(AllCircles, false, NameClause(name) + ExceptClause(except) + [Workspace])
  }

  /** `executeCircleSimpleActiveCountQuery`. */
  function CircleSimpleActiveCountQuery(name: Option<string>, except: Option<string>): (s: Statement)
    ensures s.selection == SimpleCircleActiveQuery(name, except).selection
    ensures s.placeholders == SimpleParametersLayout(name, except, false)
  {
    Statement(ActiveCircles, false, NameClause(name) + ExceptClause(except) + [Workspace])
  }

  /** `executeSimpleCircleCountQuery(name, status, except)` as written:
      true counts every circle, anything else the active ones. */
  function ExecuteSimpleCircleCountQuery(name: Option<string>, status: Option<bool>, except: Option<string>): (s: Statement)
    ensures s.placeholders == SimpleParametersLayout(name, except, false)
    ensures s.selection == (if status == Some(true) then AllCircles else ActiveCircles)
  {
    if status == Some(true) then CircleSimpleCountQuery(name, except) else CircleSimpleActiveCountQuery(name, except)
  }

  /** As written, the simple count never counts the circles the simple list
      returns: for every value of `status` it counts the other set. A circle
      with no deployment shows it: with status true it is counted and not
      listed, with any other status listed and not counted. */
  lemma SimpleCountDisagreesWithList(name: Option<string>, status: Option<bool>, except: Option<string>, c: Circle)
    ensures ExecuteSimpleCircleCountQuery(name, status, except).selection != CreateSimpleQuery(name, except, status).selection
    ensures status == Some(true) ==>
              StatementSelects(ExecuteSimpleCircleCountQuery(name, status, except), c, []) &&
              !StatementSelects(CreateSimpleQuery(name, except, status), c, [])
    ensures status != Some(true) ==>
              !StatementSelects(ExecuteSimpleCircleCountQuery(name, status, except), c, []) &&
              StatementSelects(CreateSimpleQuery(name, except, status), c, [])
  {
  }

  /** The simple count with the dispatch of the simple list: true counts the
      active circles, anything else every circle. */
  function SimpleCircleCountQueryCorrected(name: Option<string>, status: Option<bool>, except: Option<string>): (s: Statement)
    ensures s.placeholders == SimpleParametersLayout(name, except, false)
    ensures s.selection == CreateSimpleQuery(name, except, status).selection
  {
    if status == Some(true) then CircleSimpleActiveCountQuery(name, except) else CircleSimpleCountQuery(name, except)
  }

  /** `executeActiveCirclePercentageCountQuery`. */
  function ActivePercentageCountQuery(name: Option<string>): (c: CountCall)
    ensures c.statement.percentageOnly && c.parametersActive.None?
    ensures c.statement.placeholders == ParametersLayout(name, c.parametersActive, false)
  {
    CountCall(Statement(ActivePercentageCount, true, NameClause(name) + [Workspace]), None)
  }

  /** `executeInactiveCirclePercentageCountQuery` as written. */
  function InactivePercentageCountQuery(name: Option<string>): (c: CountCall)
    ensures c.statement.percentageOnly && c.parametersActive.None?
    ensures c.statement.placeholders == ParametersLayout(name, c.parametersActive, false)
  {
    CountCall(Statement(InactivePercentageCount, true, NameClause(name) + [Workspace]), None)
  }

  /** As written, the inactive percentage count leaves out circles that the
      inactive percentage list returns: a percentage circle whose only
      deployment is NOT_DEPLOYED is listed and not counted. */
  lemma InactivePercentageCountMissesListedCircle(c: Circle, d: CircleDeployment)
    requires c.matcherType == Percentage
    requires d.circleId == c.id && d.workspaceId == c.workspaceId && d.status == NotDeployed
    ensures StatementSelects(PercentageListQuery(None, false), c, [d])
    ensures !StatementSelects(ExecuteCountQueryPercentage(None, false).statement, c, [d])
  {
    assert d in [d];
    assert forall x :: x in [d] ==> x == d;
  }

  /** The inactive percentage count with the list's predicate and its
      sub-select placeholder. */
  function InactivePercentageCountQueryCorrected(name: Option<string>): (c: CountCall)
    ensures c.statement.selection == InactiveCircleQuery(name, Some(true)).selection
    ensures c.statement.percentageOnly
    ensures c.statement.placeholders == ParametersLayout(name, c.parametersActive, false)
  {
    CountCall(Statement(InactiveCircles, true, [SubqueryWorkspace] + NameClause(name) + [Workspace]), Some(false))
  }

  /** `executeCountQueryPercentage(name, active)` as written: both counts
      are run with `createParametersArray(name, null, workspaceId)`. */
  function ExecuteCountQueryPercentage(name: Option<string>, active: bool): (c: CountCall)
    ensures c.statement.percentageOnly && c.parametersActive.None?
    ensures c.statement.placeholders == ParametersLayout(name, c.parametersActive, false)
    ensures c.statement.selection == (if active then ActivePercentageCount else InactivePercentageCount)
  {
    if active then ActivePercentageCountQuery(name) else InactivePercentageCountQuery(name)
  }

  /** `executeCountQueryPercentage(name, active)` with the corrected inactive
      count, which counts what the inactive percentage list returns. */
  function ExecuteCountQueryPercentageCorrected(name: Option<string>, active: bool): (c: CountCall)
    ensures c.statement.percentageOnly
    ensures c.statement.placeholders == ParametersLayout(name, c.parametersActive, false)
    ensures !active ==> c.statement == InactiveCircleQuery(name, Some(true))
  {
    if active then ActivePercentageCountQuery(name) else InactivePercentageCountQueryCorrected(name)
  }

  /** The statement `findCirclesPercentage` lists with; its parameters are
      `createParametersArray(name, active, workspaceId)`, without a page. */
  function PercentageListQuery(name: Option<string>, active: bool): (s: Statement)
    ensures s.percentageOnly
    ensures s.selection == ActiveFilter(Some(active))
    ensures s.placeholders == ParametersLayout(name, Some(active), false)
  {
    if active then ActiveCircleQuery(name, Some(true)) else InactiveCircleQuery(name, Some(true))
  }

  // ---------------------------------------------------------------------
  // Statements whose parameter lists are built in place

  /** `countGroupedByStatus`: the outer workspace, the sub-select's
      workspace, then the name. */
  function CountGroupedByStatusQuery(name: Option<string>): seq<Placeholder>
  {
    [Workspace, SubqueryWorkspace] + NameClause(name)
  }

  method CountGroupedByStatusParameters(workspaceId: string, name: Option<string>) returns (parameters: seq<Param>)
    ensures LinesUp(CountGroupedByStatusQuery(name), parameters, Bindings(name, None, workspaceId, None))
  {
    parameters := [Text(workspaceId), Text(workspaceId)];
    if name.Some? {
      parameters := parameters + [Text(NamePattern(name.value))];
    }
  }

  /** `findCirclesHistory`'s statement. */
  function CirclesHistoryQuery(name: Option<string>): seq<Placeholder>
  {
    [Workspace, SubqueryWorkspace] + NameClause(name) + [Limit, OffsetRows]
  }

  /** `findCirclesHistory`'s parameters; the offset is `size * page`. */
  method CirclesHistoryParameters(workspaceId: string, name: Option<string>, pageRequest: PageRequest) returns (parameters: seq<Param>)
    ensures LinesUp(CirclesHistoryQuery(name), parameters, Bindings(name, None, workspaceId, Some(pageRequest)))
    ensures parameters[|parameters| - 1] == Number(pageRequest.size * pageRequest.page)
  {
    parameters := [Text(workspaceId), Text(workspaceId)];
    if name.Some? {
      parameters := parameters + [Text(NamePattern(name.value))];
    }
    parameters := parameters + [Number(pageRequest.size)];
    parameters := parameters + [Number(pageRequest.size * pageRequest.page)];
  }

  /** `count(workspaceId, name)`. */
  function CountQuery(name: Option<string>): seq<Placeholder>
  {
    [Workspace] + NameClause(name)
  }

  method CountParameters(workspaceId: string, name: Option<string>) returns (parameters: seq<Param>)
    ensures LinesUp(CountQuery(name), parameters, Bindings(name, None, workspaceId, None))
  {
    parameters := [Text(workspaceId)];
    if name.Some? {
      parameters := parameters + [Text(NamePattern(name.value))];
    }
  }

  // ---------------------------------------------------------------------
  // Counts and pages

  /** `applyCountQuery`: whether the count found at least one row. */
  function ApplyCountQuery(count: Option<int>): (found: bool)
    ensures found <==> count.Some? && count.value >= 1
    ensures count == Some(0) ==> !found
  {
    match count
    case None => false
    case Some(n) => n >= 1
  }

  /** `?: 0` on a count. */
  function TotalOrZero(count: Option<int>): (n: int)
    ensures count.None? ==> n == 0
    ensures count.Some? ==> n == count.value
  {
    if count.Some? then count.value else 0
  }

  /** `find(...)` (both overloads) and `findCirclesHistory`: the page built
      from the list query's rows and the count. */
  function AssemblePage<T>(result: Option<seq<T>>, pageRequest: PageRequest, count: Option<int>): (p: Page<T>)
    ensures result.None? ==> p.content == []
    ensures result.Some? ==> p.content == result.value
    ensures p.pageNumber == pageRequest.page && p.size == pageRequest.size
    ensures p.totalItems == TotalOrZero(count)
  {
    Page(if result.Some? then result.value else [], pageRequest.page, pageRequest.size, TotalOrZero(count))
  }

  /** `findCirclesPercentage`'s page: without a page request it is page 0
      with as many items as the query returned. */
  function AssemblePercentagePage<T>(result: Option<seq<T>>, pageRequest: Option<PageRequest>, count: Option<int>): (p: Page<T>)
    ensures result.None? ==> p.content == []
    ensures result.Some? ==> p.content == result.value
    ensures pageRequest.None? ==> p.pageNumber == 0 && p.size == |p.content|
    ensures pageRequest.Some? ==> p.pageNumber == pageRequest.value.page && p.size == pageRequest.value.size
    ensures p.totalItems == TotalOrZero(count)
  {
    var pageUpdated := if pageRequest.Some? then pageRequest.value
                       else PageRequest(0, if result.Some? then |result.value| else 0);
    AssemblePage(result, pageUpdated, count)
  }

  /** The statements `find(name, active, workspaceId, pageRequest)` runs, with
      its list and count parameters. */
  datatype FindPlan = FindPlan(list: Statement, listParameters: seq<Param>, count: Statement, countParameters: seq<Param>)

  /** `find(name, active, workspaceId, pageRequest)`: the list and count
      statements select the same circles and each one's parameters line up
      with its placeholders. */
  method FindCircles(name: Option<string>, active: Option<bool>, workspaceId: string, pageRequest: PageRequest)
    returns (plan: FindPlan)
    ensures plan.list.selection == plan.count.selection == ActiveFilter(active)
    ensures LinesUp(plan.list.placeholders, plan.listParameters, Bindings(name, None, workspaceId, Some(pageRequest)))
    ensures LinesUp(plan.count.placeholders, plan.countParameters, Bindings(name, None, workspaceId, None))
  {
    var list := CreateQueryLimit(name, active);
    var listParameters := CreateParametersArray(name, active, workspaceId, Some(pageRequest));
    var countCall := ExecuteCountQuery(name, active);
    var countParameters := CreateParametersArray(name, countCall.parametersActive, workspaceId, None);
    plan := FindPlan(list, listParameters, countCall.statement, countParameters);
  }

  /** `find(name, except, status, workspaceId, pageRequest)`, with the
      corrected count dispatch. */
  method FindSimpleCircles(name: Option<string>, except: Option<string>, status: Option<bool>, workspaceId: string, pageRequest: PageRequest)
    returns (plan: FindPlan)
    ensures plan.list.selection == plan.count.selection == StatusFilter(status)
    ensures LinesUp(plan.list.placeholders, plan.listParameters, Bindings(name, except, workspaceId, Some(pageRequest)))
    ensures LinesUp(plan.count.placeholders, plan.countParameters, Bindings(name, except, workspaceId, None))
  {
    var list := CreateSimpleQueryLimit(name, except, status);
    var listParameters := CreateParametersSimpleCircleArray(name, except, workspaceId, Some(pageRequest));
    var count := SimpleCircleCountQueryCorrected(name, status, except);
    var countParameters := CreateParametersSimpleCircleArray(name, except, workspaceId, None);
    plan := FindPlan(list, listParameters, count, countParameters);
  }

  /** `findCirclesPercentage`: the list and count statements, with the
      corrected inactive count; the parameters line up with both. */
  method FindCirclesPercentage(workspaceId: string, name: Option<string>, active: bool)
    returns (plan: FindPlan)
    ensures plan.list.percentageOnly && plan.count.percentageOnly
    ensures plan.list.selection == ActiveFilter(Some(active))
    ensures !active ==> plan.count.selection == plan.list.selection
    ensures LinesUp(plan.list.placeholders, plan.listParameters, Bindings(name, None, workspaceId, None))
    ensures LinesUp(plan.count.placeholders, plan.countParameters, Bindings(name, None, workspaceId, None))
  {
    var countCall := ExecuteCountQueryPercentageCorrected(name, active);
    var list := PercentageListQuery(name, active);
    var listParameters := CreateParametersArray(name, Some(active), workspaceId, None);
    var countParameters := CreateParametersArray(name, countCall.parametersActive, workspaceId, None);
    plan := FindPlan(list, listParameters, countCall.statement, countParameters);
  }
}
