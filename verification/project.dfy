/** The GitHub side of the worker: the Projects v2 board that holds each
    ticket's Status, the client's two caches (project metadata and viewer
    login), the ready-ticket listing and the URL scraped from `gh pr create`.

    Every `gh` call is replaced by its decoded reply, gathered in a `Gh`
    value; a reply is `Err` when the command exits non-zero or prints
    something that does not decode. A GraphQL object that is `null` or
    absent is `None`. */
module Project {
  import opened Base
  import opened Text
  import opened Sorting

  // ---------------------------------------------------------------------------
  // GraphQL data

  datatype SelectOption = SelectOption(name: string, id: string)

  /** A node of `fields(first: 50)`: only single-select fields carry a name,
      an id and options; other fields come back as empty objects. */
  datatype FieldNode = FieldNode(id: Option<string>, name: Option<string>, options: seq<SelectOption>)

  datatype ProjectData = ProjectData(id: Option<string>, fields: seq<FieldNode>)

  /** A node of `projectsV2(first: 50)`. */
  datatype ProjectNode = ProjectNode(id: Option<string>, title: Option<string>)

  /** A node of an item's `fieldValues(first: 20)`. */
  datatype FieldValueNode = FieldValueNode(fieldName: Option<string>, name: Option<string>)

  /** A node of an issue's `projectItems(first: 20)`. */
  datatype ItemNode = ItemNode(id: Option<string>, projectId: Option<string>, fieldValues: seq<FieldValueNode>)

  /** An entry of `gh issue list --json number,title,createdAt`. */
  datatype IssueSummary = IssueSummary(number: int, title: string, createdAt: Option<string>)

  /** `_project_cache`: the three things a status move needs. */
  datatype ProjectCache = ProjectCache(projectId: Option<string>, statusFieldId: Option<string>,
                                       statusOptions: map<string, string>)

  /** What `get_issue_project_item` returns. */
  datatype ProjectItem = ProjectItem(itemId: Option<string>, status: string)

  /** The replies of the `gh` commands the client issues. `issueItems(n)` is
      `Ok(None)` when the repository has no issue `n`. */
  datatype Gh = Gh(
    userLogin: Result<Option<string>>,
    projectByNumber: int -> Result<Option<ProjectData>>,
    projectList: Result<seq<ProjectNode>>,
    projectNode: string -> Result<Option<ProjectData>>,
    issueItems: int -> Result<Option<seq<ItemNode>>>,
    openIssues: string -> Result<seq<IssueSummary>>)

  /** `GitHubClient`'s configuration and its two caches. `projectNumber` is
      `None` when not configured. */
  datatype Client = Client(projectNumber: Option<int>, projectTitle: Option<string>,
                           cache: Option<ProjectCache>, viewerLogin: Option<string>)

  const StatusName: string := "Status"

  // ---------------------------------------------------------------------------
  // Helpers

  /** Python truthiness of an optional string. */
  predicate Truthy(s: Option<string>) {
    s.Some? && s.value != ""
  }

  // ---------------------------------------------------------------------------
  // Project metadata

  /** `{option["name"]: option["id"] for option in options}`. */
  function OptionsMap(opts: seq<SelectOption>): (m: map<string, string>)
    ensures forall k :: k in m <==> exists i :: 0 <= i < |opts| && opts[i].name == k
    decreases |opts|
  {
    if |opts| == 0 then map[]
    else
      var init := opts[..|opts| - 1];
      var m := OptionsMap(init);
      assert forall i :: 0 <= i < |init| ==> init[i] == opts[i];
      m[opts[|opts| - 1].name := opts[|opts| - 1].id]
  }

  /** Later options with the same name overwrite earlier ones. */
  lemma {:induction false} OptionsMapLastWins(opts: seq<SelectOption>, i: nat)
    requires i < |opts| && forall j :: i < j < |opts| ==> opts[j].name != opts[i].name
    ensures opts[i].name in OptionsMap(opts) && OptionsMap(opts)[opts[i].name] == opts[i].id
    decreases |opts|
  {
    if i < |opts| - 1 {
      var init := opts[..|opts| - 1];
      assert init[i] == opts[i];
      OptionsMapLastWins(init, i);
    }
  }

  predicate IsStatusField(f: FieldNode) {
    f.name == Some(StatusName)
  }

  /** `_project_cache_from_data`: the last field named Status supplies the
      field id and the option map; without one the project is unusable. */
  function ProjectCacheFromData(p: ProjectData): (r: Result<ProjectCache>)
    ensures r.Err? <==> forall j :: 0 <= j < |p.fields| ==> !IsStatusField(p.fields[j])
    ensures r.Err? ==> r.msg == "Status field not found in project"
    ensures r.Ok? ==> (r.value.projectId == p.id &&
              exists i :: 0 <= i < |p.fields| && IsStatusField(p.fields[i])
                          && (forall j :: i < j < |p.fields| ==> !IsStatusField(p.fields[j]))
                          && r.value.statusFieldId == p.fields[i].id
                          && r.value.statusOptions == OptionsMap(p.fields[i].options))
  {
    match LastWhere(p.fields, IsStatusField)
    case None => Err("Status field not found in project")
    case Some(i) => Ok(ProjectCache(p.id, p.fields[i].id, OptionsMap(p.fields[i].options)))
  }

  predicate TitleIs(title: string, n: ProjectNode) {
    n.title == Some(title)
  }

  /** The id search of `_fetch_project_by_title`: the id of the last project
      with the title, which must be a non-empty string. */
  function SelectProjectByTitle(nodes: seq<ProjectNode>, title: string): (r: Result<string>)
    ensures r.Ok? ==> (r.value != "" &&
              exists i :: 0 <= i < |nodes| && TitleIs(title, nodes[i]) && nodes[i].id == Some(r.value)
                          && forall j :: i < j < |nodes| ==> !TitleIs(title, nodes[j]))
    ensures (forall j :: 0 <= j < |nodes| ==> !TitleIs(title, nodes[j])) ==> r == Err("Project title not found")
    ensures r.Err? ==> r.msg == "Project title not found"
  {
    var id := match LastWhere(nodes, n => TitleIs(title, n))
              case None => None
              case Some(i) => nodes[i].id;
    if !Truthy(id) then Err("Project title not found") else Ok(id.value)
  }

  /** `_fetch_project_by_number`. */
  function FetchByNumber(gh: Gh, number: int): Result<ProjectCache> {
    var d :- gh.projectByNumber(number);
    if d.None? then Err("Project not found") else ProjectCacheFromData(d.value)
  }

  /** `_fetch_project_by_title`: a title search, then a node lookup. */
  function FetchByTitle(gh: Gh, title: string): Result<ProjectCache> {
    var nodes :- gh.projectList;
    var id :- SelectProjectByTitle(nodes, title);
    var d :- gh.projectNode(id);
    if d.None? then Err("Project node not found") else ProjectCacheFromData(d.value)
  }

  predicate NumberSet(c: Client) {
    c.projectNumber.Some? && c.projectNumber.value != 0
  }

  /** `_ensure_project_cache`: a cached value is returned without asking
      `gh`; otherwise the project number, when set, takes precedence over
      the title, and with neither the call fails. Only success is cached. */
  function EnsureProjectCache(c: Client, gh: Gh): (r: (Client, Result<ProjectCache>))
    ensures c.cache.Some? ==> r == (c, Ok(c.cache.value))
    ensures r.1.Ok? ==> r.0 == c.(cache := Some(r.1.value))
    ensures r.1.Err? ==> r.0 == c
    ensures c.cache.None? && NumberSet(c) ==> r.1 == FetchByNumber(gh, c.projectNumber.value)
    ensures c.cache.None? && !NumberSet(c) && Truthy(c.projectTitle) ==>
              r.1 == FetchByTitle(gh, c.projectTitle.value)
    ensures c.cache.None? && !NumberSet(c) && !Truthy(c.projectTitle) ==>
              r.1 == Err("Missing project number or title")
  {
    if c.cache.Some? then (c, Ok(c.cache.value))
    else
      var data := if NumberSet(c) then FetchByNumber(gh, c.projectNumber.value)
                  else if !Truthy(c.projectTitle) then Err("Missing project number or title")
                  else FetchByTitle(gh, c.projectTitle.value);
      if data.Err? then (c, data) else (c.(cache := Some(data.value)), data)
  }

  /** The project is fetched at most once per client: after a success, a
      second call gives the same answer whatever `gh` would now reply. */
  lemma EnsureProjectCacheOnce(c: Client, gh: Gh, later: Gh)
    ensures var first := EnsureProjectCache(c, gh);
            first.1.Ok? ==> EnsureProjectCache(first.0, later) == first
  {
  }

  /** `viewer_login`: a cached non-empty login is returned as is; otherwise
      `gh api user` is asked and a missing or empty login fails. */
  function ViewerLogin(c: Client, gh: Gh): (r: (Client, Result<string>))
    ensures Truthy(c.viewerLogin) ==> r == (c, Ok(c.viewerLogin.value))
    ensures r.1.Ok? ==> r.1.value != "" && r.0 == c.(viewerLogin := Some(r.1.value))
    ensures r.1.Err? ==> r.0 == c
    ensures !Truthy(c.viewerLogin) && gh.userLogin.Ok? ==>
              (r.1.Ok? <==> Truthy(gh.userLogin.value)) &&
              (r.1.Ok? ==> gh.userLogin.value == Some(r.1.value)) &&
              (r.1.Err? ==> r.1.msg == "Unable to resolve gh viewer login")
  {
    if Truthy(c.viewerLogin) then (c, Ok(c.viewerLogin.value))
    else match gh.userLogin
      case Err(m) => (c, Err(m))
      case Ok(login) =>
        if !Truthy(login) then (c, Err("Unable to resolve gh viewer login"))
        else (c.(viewerLogin := Some(login.value)), Ok(login.value))
  }

  /** The login is looked up at most once per client. */
  lemma ViewerLoginOnce(c: Client, gh: Gh, later: Gh)
    ensures var first := ViewerLogin(c, gh);
            first.1.Ok? ==> ViewerLogin(first.0, later) == first
  {
  }

  // ---------------------------------------------------------------------------
  // A ticket's project item

  predicate InProject(projectId: Option<string>, it: ItemNode) {
    it.projectId == projectId
  }

  predicate IsStatusValue(f: FieldValueNode) {
    f.fieldName == Some(StatusName)
  }

  function IssueMessage(number: int, what: string): string {
    "Issue " + IntToString(number) + " " + what
  }

  /** `get_issue_project_item` on the decoded reply: the first item of the
      wanted project is used, and within it the last Status value. */
  function GetIssueProjectItem(issue: Option<seq<ItemNode>>, number: int, projectId: Option<string>): (r: Result<ProjectItem>)
    ensures issue.None? ==> r == Err(IssueMessage(number, "not found"))
    ensures issue.Some? && (forall j :: 0 <= j < |issue.value| ==> !InProject(projectId, issue.value[j])) ==>
              r == Err(IssueMessage(number, "not in project"))
    ensures r.Ok? ==> (issue.Some? && r.value.status != "" &&
              exists i :: 0 <= i < |issue.value| && InProject(projectId, issue.value[i])
                && (forall j :: 0 <= j < i ==> !InProject(projectId, issue.value[j]))
                && r.value.itemId == issue.value[i].id
                && exists k :: 0 <= k < |issue.value[i].fieldValues|
                     && IsStatusValue(issue.value[i].fieldValues[k])
                     && issue.value[i].fieldValues[k].name == Some(r.value.status)
                     && forall l :: k < l < |issue.value[i].fieldValues| ==> !IsStatusValue(issue.value[i].fieldValues[l]))
    ensures r.Err? && issue.Some? && (exists j :: 0 <= j < |issue.value| && InProject(projectId, issue.value[j])) ==>
              r == Err(IssueMessage(number, "missing Status field"))
  {
    if issue.None? then Err(IssueMessage(number, "not found"))
    else
      var items := issue.value;
      match FirstWhere(items, it => InProject(projectId, it))
      case None => Err(IssueMessage(number, "not in project"))
      case Some(i) =>
        var status := match LastWhere(items[i].fieldValues, IsStatusValue)
                      case None => None
                      case Some(k) => items[i].fieldValues[k].name;
        if !Truthy(status) then Err(IssueMessage(number, "missing Status field"))
        else Ok(ProjectItem(items[i].id, status.value))
  }

  /** The item lookup for ticket `number`, failing when `gh` fails. */
  function LookupItem(gh: Gh, number: int, projectId: Option<string>): Result<ProjectItem> {
    var issue :- gh.issueItems(number);
    GetIssueProjectItem(issue, number, projectId)
  }

  // ---------------------------------------------------------------------------
  // Status moves

  /** Where a single-select value lives: (project id, item id, field id). */
  type BoardKey = (Option<string>, Option<string>, Option<string>)

  /** The selected option id of every (project, item, field) cell. */
  type Board = map<BoardKey, string>

  /** The option id `status` maps to, when it maps to a non-empty one. */
  function OptionFor(cache: ProjectCache, status: string): (r: Option<string>)
    ensures r.Some? <==> status in cache.statusOptions && cache.statusOptions[status] != ""
    ensures r.Some? ==> r.value == cache.statusOptions[status]
  {
    if status in cache.statusOptions && cache.statusOptions[status] != "" then Some(cache.statusOptions[status]) else None
  }

  /** The cell a status move writes. */
  function StatusCell(cache: ProjectCache, item: ProjectItem): BoardKey {
    (cache.projectId, item.itemId, cache.statusFieldId)
  }

  /** `board` with cell `key` set to `v` and every other cell as it was. */
  ghost predicate OnlyCellSet(board: Board, board': Board, key: BoardKey, v: string) {
    key in board' && board'[key] == v
    && forall k :: k != key ==> (k in board' <==> k in board) && (k in board ==> board'[k] == board[k])
  }

  /** `move_issue_status`: resolve the project, the ticket's item and the
      option id of `status`, then set that one cell. `mutation` is the reply
      of the update mutation. */
  function MoveIssueStatus(c: Client, gh: Gh, number: int, status: string, mutation: Result<()>, board: Board)
    : (r: (Client, Result<()>, Board))
    ensures r.0 == EnsureProjectCache(c, gh).0
    ensures r.1.Err? ==> r.2 == board
    ensures var cache := EnsureProjectCache(c, gh).1;
            cache.Ok? && LookupItem(gh, number, cache.value.projectId).Ok? && OptionFor(cache.value, status).None? ==>
              r.1 == Err("Unknown status option: " + status)
    ensures var cache := EnsureProjectCache(c, gh).1;
            r.1.Ok? ==> (cache.Ok? && LookupItem(gh, number, cache.value.projectId).Ok?
                         && OptionFor(cache.value, status).Some?
                         && OnlyCellSet(board, r.2, StatusCell(cache.value, LookupItem(gh, number, cache.value.projectId).value),
                                        OptionFor(cache.value, status).value))
  {
    var ensured := EnsureProjectCache(c, gh);
    var cache := ensured.1;
    if cache.Err? then (ensured.0, Err(cache.msg), board)
    else
      var item := LookupItem(gh, number, cache.value.projectId);
      if item.Err? then (ensured.0, Err(item.msg), board)
      else
        var option := OptionFor(cache.value, status);
        if option.None? then (ensured.0, Err("Unknown status option: " + status), board)
        else if mutation.Err? then (ensured.0, Err(mutation.msg), board)
        else (ensured.0, Ok(()), board[StatusCell(cache.value, item.value) := option.value])
  }

  /** Moving a ticket to the status it was just moved to changes nothing. */
  lemma MoveIssueStatusIdempotent(c: Client, gh: Gh, number: int, status: string, mutation: Result<()>, board: Board)
    ensures var first := MoveIssueStatus(c, gh, number, status, mutation, board);
            var second := MoveIssueStatus(first.0, gh, number, status, mutation, first.2);
            first.1.Ok? ==> second.1.Ok? && second.2 == first.2
  {
  }

  // ---------------------------------------------------------------------------
  // The ready list

  /** The sort key of `list_ready_issues`: a missing creation time sorts as "". */
  function CreatedKey(i: IssueSummary): string {
    i.createdAt.GetOr("")
  }

  /** The status test of `list_ready_issues`, for a lookup that succeeded. */
  predicate IsReady(look: int -> Result<ProjectItem>, i: IssueSummary) {
    look(i.number).Ok? && look(i.number).value.status == "ready"
  }

  /** The filtering loop of `list_ready_issues`: one lookup per ticket, in
      order; the first failed lookup aborts the listing. It succeeds exactly
      when every lookup does, and then keeps the ready tickets in their
      order. */
  function KeepReady(s: seq<IssueSummary>, look: int -> Result<ProjectItem>): (r: Result<seq<IssueSummary>>)
    ensures r.Ok? <==> forall j :: 0 <= j < |s| ==> look(s[j].number).Ok?
    ensures r.Ok? ==> r.value == Filter(s, i => IsReady(look, i))
    decreases |s|
  {
    if |s| == 0 then Ok([])
    else
      var init := s[..|s| - 1];
      assert forall j :: 0 <= j < |init| ==> init[j] == s[j];
      var kept :- KeepReady(init, look);
      var item :- look(s[|s| - 1].number);
      Ok(kept + (if item.status == "ready" then [s[|s| - 1]] else []))
  }

  /** A failed lookup in a prefix decides the whole listing. */
  lemma {:induction false} KeepReadyPrefixErr(s: seq<IssueSummary>, n: nat, look: int -> Result<ProjectItem>)
    requires n <= |s| && KeepReady(s[..n], look).Err?
    ensures KeepReady(s, look) == KeepReady(s[..n], look)
    decreases |s|
  {
    if n < |s| {
      assert s[..|s| - 1][..n] == s[..n];
      KeepReadyPrefixErr(s[..|s| - 1], n, look);
    } else {
      assert s[..n] == s;
    }
  }

  /** The item lookup for every ticket of one project. */
  function ItemLookup(gh: Gh, projectId: Option<string>): int -> Result<ProjectItem> {
    n => LookupItem(gh, n, projectId)
  }

  /** The answer of `list_ready_issues` as a whole. */
  function ReadyIssues(c: Client, gh: Gh, issueLabel: string): Result<seq<IssueSummary>> {
    var cache :- EnsureProjectCache(c, gh).1;
    var issues :- gh.openIssues(issueLabel);
    KeepReady(SortBy(issues, CreatedKey), ItemLookup(gh, cache.projectId))
  }

  /** `list_ready_issues`: the open tickets sorted by creation time, then
      filtered by one project-item lookup each. */
  method ListReadyIssues(c: Client, gh: Gh, issueLabel: string) returns (c': Client, r: Result<seq<IssueSummary>>)
    ensures c' == EnsureProjectCache(c, gh).0
    ensures r == ReadyIssues(c, gh, issueLabel)
  {
    var ensured := EnsureProjectCache(c, gh);
    c' := ensured.0;
    var cache := ensured.1;
    if cache.Err? {
      return c', Err(cache.msg);
    }
    var issues := gh.openIssues(issueLabel);
    if issues.Err? {
      return c', Err(issues.msg);
    }
    var sorted := SortBy(issues.value, CreatedKey);
    var look := ItemLookup(gh, cache.value.projectId);
    assert ReadyIssues(c, gh, issueLabel) == KeepReady(sorted, look);
    r := ReadyLoop(sorted, look);
  }

  /** The loop of `list_ready_issues` over the sorted tickets. */
  method ReadyLoop(sorted: seq<IssueSummary>, look: int -> Result<ProjectItem>) returns (r: Result<seq<IssueSummary>>)
    ensures r == KeepReady(sorted, look)
  {
    var ready := [];
    var i := 0;
    while i < |sorted|
      invariant 0 <= i <= |sorted|
      invariant KeepReady(sorted[..i], look) == Ok(ready)
    {
      var item := look(sorted[i].number);
      var next := sorted[..i + 1];
      assert next[..|next| - 1] == sorted[..i] && next[|next| - 1] == sorted[i];
      if item.Err? {
        KeepReadyPrefixErr(sorted, i + 1, look);
        return Err(item.msg);
      }
      ready := ready + (if item.value.status == "ready" then [sorted[i]] else []);
      assert KeepReady(next, look) == Ok(ready);
      i := i + 1;
    }
    assert sorted[..i] == sorted;
    r := Ok(ready);
  }

  /** What `list_ready_issues` promises: the ready open tickets, every one
      of them and nothing else, ordered by creation time. */
  lemma ReadyIssuesSortedAndExact(c: Client, gh: Gh, issueLabel: string)
    ensures var r := ReadyIssues(c, gh, issueLabel);
            r.Ok? ==>
              var cache := EnsureProjectCache(c, gh).1.value;
              var look := ItemLookup(gh, cache.projectId);
              SortedBy(r.value, CreatedKey)
              && forall x :: x in r.value <==> x in gh.openIssues(issueLabel).value && IsReady(look, x)
  {
    var r := ReadyIssues(c, gh, issueLabel);
    if r.Ok? {
      var cache := EnsureProjectCache(c, gh).1.value;
      var look := ItemLookup(gh, cache.projectId);
      var issues := gh.openIssues(issueLabel).value;
      var sorted := SortBy(issues, CreatedKey);
      var p := i => IsReady(look, i);
      SortBySorted(issues, CreatedKey);
      FilterSorted(sorted, p, CreatedKey);
      FilterMembers(sorted, p);
      SortByPermutes(issues, CreatedKey);
      assert forall x :: x in sorted <==> x in multiset(sorted);
      assert forall x :: x in issues <==> x in multiset(issues);
    }
  }

  // ---------------------------------------------------------------------------
  // gh command lines and output

  /** `graphql(query, variables)`: the argument list, with a `None` value
      written as `key=null`. */
  function GraphqlArgs(query: string, vars: seq<(string, Option<string>)>): (r: seq<string>)
    ensures |r| == 5 + 2 * |vars|
    ensures r[..5] == ["gh", "api", "graphql", "-f", "query=" + query]
    ensures forall i :: 0 <= i < |vars| ==>
              r[5 + 2 * i] == "-F" && StartsWith(r[6 + 2 * i], vars[i].0 + "=")
              && r[6 + 2 * i][|vars[i].0| + 1..] == vars[i].1.GetOr("null")
    decreases |vars|
  {
    if |vars| == 0 then ["gh", "api", "graphql", "-f", "query=" + query]
    else
      var init := GraphqlArgs(query, vars[..|vars| - 1]);
      var (k, v) := vars[|vars| - 1];
      assert forall i :: 0 <= i < |vars| - 1 ==> vars[..|vars| - 1][i] == vars[i];
      init + ["-F", k + "=" + v.GetOr("null")]
  }

  predicate IsHttpsToken(t: string) {
    StartsWith(t, "https://")
  }

  /** `_extract_first_url`: the first whitespace-separated token that starts
      with `https://`, or "" when there is none. */
  function FirstUrl(text: Option<string>): (r: string)
    ensures text.None? || text.value == "" ==> r == ""
    ensures r != "" ==> (text.Some? && IsHttpsToken(r) &&
              exists i :: 0 <= i < |Tokens(text.value)| && Tokens(text.value)[i] == r
                          && forall j :: 0 <= j < i ==> !IsHttpsToken(Tokens(text.value)[j]))
    ensures text.Some? && r == "" ==> forall j :: 0 <= j < |Tokens(text.value)| ==> !IsHttpsToken(Tokens(text.value)[j])
  {
    if text.None? || text.value == "" then ""
    else
      var ts := Tokens(text.value);
      match FirstWhere(ts, IsHttpsToken)
      case None => ""
      case Some(i) => ts[i]
  }
}
