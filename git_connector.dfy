/** Counter-based pagination against the GitHub REST API and the
    projections built on it: pull requests of a repository as records, the
    logins of a team's members and the full names of a team's
    repositories. The server is a function from an endpoint and a page
    request to the page it answers with; how endpoints become URLs is not
    modelled. */
module GitConnector {
  import opened Wrappers
  import opened Seqs
  import opened PyStr
  import opened Json

  /** The three list endpoints: `/repos/{repo}/pulls`,
      `/orgs/{org}/teams/{team}/members` and `/orgs/{org}/teams/{team}/repos`. */
  datatype Endpoint =
    | PullsOf(repo: Json)
    | TeamMembersOf(org: Json, team: Json)
    | TeamReposOf(org: Json, team: Json)

  /** The query parameters `page` and `per_page`. */
  datatype PageRequest = PageRequest(page: nat, perPage: nat)

  /** A response: its status code and the list its body decodes to. */
  datatype Page = Page(status: int, items: seq<Json>)

  type Server = (Endpoint, PageRequest) -> Page

  const PerPage: nat := 100

  function PageAt(server: Server, ep: Endpoint, n: nat): Page {
    server(ep, PageRequest(n, PerPage))
  }

  /** A page after which `handle_pagination` stops: a failed request or an
      empty list. */
  predicate Stops(p: Page) {
    p.status != 200 || p.items == []
  }

  /** Some page ends the loop; on any other server `handle_pagination`
      requests forever. */
  ghost predicate Ends(server: Server, ep: Endpoint) {
    exists n: nat :: 1 <= n && Stops(PageAt(server, ep, n))
  }

  /** Page `s` is the first page that stops the loop. */
  ghost predicate FirstStopAt(server: Server, ep: Endpoint, s: nat) {
    && 1 <= s && Stops(PageAt(server, ep, s))
    && forall k :: 1 <= k < s ==> !Stops(PageAt(server, ep, k))
  }

  lemma {:induction false} LeastStop(server: Server, ep: Endpoint, w: nat)
    requires 1 <= w && Stops(PageAt(server, ep, w))
    ensures exists s :: FirstStopAt(server, ep, s)
    decreases w
  {
    if k :| 1 <= k < w && Stops(PageAt(server, ep, k)) {
      LeastStop(server, ep, k);
    } else {
      assert FirstStopAt(server, ep, w);
    }
  }

  /** The number of the page at which the loop stops. */
  ghost function FirstStop(server: Server, ep: Endpoint): (s: nat)
    requires Ends(server, ep)
    ensures FirstStopAt(server, ep, s)
  {
    var w: nat :| 1 <= w && Stops(PageAt(server, ep, w));
    LeastStop(server, ep, w);
    var s :| FirstStopAt(server, ep, s);
    s
  }

  /** The bodies of pages 1 to n, in order. */
  function PagesUpTo(server: Server, ep: Endpoint, n: nat): (pages: seq<seq<Json>>)
    ensures |pages| == n
  {
    seq(n, i requires 0 <= i < n => PageAt(server, ep, i + 1).items)
  }

  /** What `handle_pagination` returns: every page before the first that
      stops. */
  ghost function Fetched(server: Server, ep: Endpoint): seq<seq<Json>>
    requires Ends(server, ep)
  {
    PagesUpTo(server, ep, FirstStop(server, ep) - 1)
  }

  /** `handle_pagination(url)`: pages 1, 2, ... with `per_page` 100, each
      non-empty 200 page appended, until an empty page or another status;
      what was gathered is returned in either case. */
  method HandlePagination(server: Server, ep: Endpoint) returns (allData: seq<seq<Json>>, requests: seq<PageRequest>)
    requires Ends(server, ep)
    ensures |requests| == FirstStop(server, ep)
    ensures forall k :: 0 <= k < |requests| ==> requests[k] == PageRequest(k + 1, PerPage)
    ensures allData == Fetched(server, ep)
  {
    allData := [];
    requests := [];
    var page: nat := 1;
    ghost var w: nat :| 1 <= w && Stops(PageAt(server, ep, w));
    while true
      invariant 1 <= page <= w && |requests| == page - 1
      invariant forall k :: 0 <= k < |requests| ==> requests[k] == PageRequest(k + 1, PerPage)
      invariant forall k :: 1 <= k < page ==> !Stops(PageAt(server, ep, k))
      invariant allData == PagesUpTo(server, ep, page - 1)
      decreases w - page
    {
      var response := server(ep, PageRequest(page, PerPage));
      requests := requests + [PageRequest(page, PerPage)];
      if response.status == 200 {
        var data := response.items;
        if data == [] {
          break;
        }
        allData := allData + [data];
        page := page + 1;
      } else {
        break;
      }
    }
    assert FirstStopAt(server, ep, page);
    FirstStopUnique(server, ep, page, FirstStop(server, ep));
  }

  lemma FirstStopUnique(server: Server, ep: Endpoint, s: nat, t: nat)
    requires FirstStopAt(server, ep, s) && FirstStopAt(server, ep, t)
    ensures s == t
  {
  }

  /** The pages returned are the successful non-empty ones before the stop,
      in request order; the stop is an empty page or a failure, whose pages
      gathered so far are kept rather than raised. */
  lemma FetchedPages(server: Server, ep: Endpoint)
    requires Ends(server, ep)
    ensures var pages, s := Fetched(server, ep), FirstStop(server, ep);
      && |pages| == s - 1
      && (forall i :: 0 <= i < |pages| ==>
            PageAt(server, ep, i + 1) == Page(200, pages[i]) && pages[i] != [])
      && (PageAt(server, ep, s).status != 200 || PageAt(server, ep, s).items == [])
  {
    var s := FirstStop(server, ep);
    forall i | 0 <= i < s - 1
      ensures PageAt(server, ep, i + 1) == Page(200, Fetched(server, ep)[i])
    {
      assert !Stops(PageAt(server, ep, i + 1));
    }
  }

  // ---------------------------------------------------------------- subscripts

  datatype FetchError =
    | KeyError(key: string)   // a dict without the key
    | TypeError               // subscripting something that is not a dict

  /** `v[k]` for a decoded JSON value and a string key. */
  function Subscript(v: Json, k: string): Result<Json, FetchError> {
    if !v.JObject? then Err(TypeError)
    else match Lookup(v.members, k)
      case None => Err(KeyError(k))
      case Some(x) => Ok(x)
  }

  /** A subscript succeeds on a dict holding the key, with a value stored
      under it; on a dict without the key it raises KeyError, on anything
      else TypeError. */
  lemma SubscriptSpec(v: Json, k: string)
    ensures Subscript(v, k).Ok? <==> v.JObject? && k in Keys(v.members)
    ensures Subscript(v, k).Ok? ==>
      exists i :: 0 <= i < |v.members| && v.members[i] == Member(k, Subscript(v, k).value)
    ensures !v.JObject? ==> Subscript(v, k) == Err(TypeError)
    ensures v.JObject? && k !in Keys(v.members) ==> Subscript(v, k) == Err(KeyError(k))
  {
  }

  /** `pr['user']['login']` */
  function Login(pr: Json): Result<Json, FetchError> {
    match Subscript(pr, "user")
    case Err(e) => Err(e)
    case Ok(u) => Subscript(u, "login")
  }

  // ---------------------------------------------------------------- pull requests

  /** The dict `get_pull_requests` builds per pull request, keyed
      `repository`, `pr_title`, `created_by`, `created_at` and `url`. */
  datatype PullRequestRecord = PullRequestRecord(
    repository: Json, prTitle: Json, createdBy: Json, createdAt: Json, url: Json)

  /** `creator_filters`: None, a list of logins, or a string. The
      navigator passes the text typed at its prompt on as a string, since
      the parameter carries no annotation to convert it with. */
  datatype CreatorFilters = NoFilters | Logins(logins: seq<Json>) | Typed(text: string)

  /** `creator_filters` is truthy: a non-empty list or a non-empty string. */
  predicate Filtering(filters: CreatorFilters) {
    match filters
    case NoFilters => false
    case Logins(xs) => xs != []
    case Typed(t) => t != ""
  }

  /** `login in creator_filters`: list membership on a list; on a string a
      substring test, which raises TypeError for a login that is not a
      string; on None a TypeError. */
  function Among(login: Json, filters: CreatorFilters): (r: Result<bool, FetchError>)
    ensures r.Err? <==> filters.NoFilters? || (filters.Typed? && !login.JString?)
    ensures r.Err? ==> r.error == TypeError
    ensures filters.Logins? ==> r == Ok(login in filters.logins)
    ensures filters.Typed? && login.JString? ==> r == Ok(Contains(filters.text, login.s))
  {
    match filters
    case NoFilters => Err(TypeError)
    case Logins(xs) => Ok(login in xs)
    case Typed(t) => if login.JString? then Ok(Contains(t, login.s)) else Err(TypeError)
  }

  /** Under a typed filter a string login passes exactly when it occurs
      somewhere in the typed text. */
  lemma AmongTyped(login: string, text: string)
    ensures Among(JString(login), Typed(text)) == Ok(exists i :: OccursAt(text, login, i))
  {
    ContainsAt(text, login);
  }

  /** A typed filter is a substring test: the login `ali` passes the
      filter `alice`, and a login that is not a string raises. */
  lemma TypedFilterIsSubstring()
    ensures Among(JString("ali"), Typed("alice")) == Ok(true)
    ensures Among(JString("bob"), Logins([JString("alice")])) == Ok(false)
    ensures Among(JNumber(7), Typed("alice")) == Err(TypeError)
  {
    assert OccursAt("alice", "ali", 0);
    AmongTyped("ali", "alice");
  }

  /** The record of one pull request, its fields read in the order the
      dict literal lists them. */
  function Project(pr: Json, repo: Json): Result<PullRequestRecord, FetchError> {
    match Subscript(pr, "title")
    case Err(e) => Err(e)
    case Ok(title) =>
      match Login(pr)
      case Err(e) => Err(e)
      case Ok(login) =>
        match Subscript(pr, "created_at")
        case Err(e) => Err(e)
        case Ok(created) =>
          match Subscript(pr, "html_url")
          case Err(e) => Err(e)
          case Ok(url) => Ok(PullRequestRecord(repo, title, login, created, url))
  }

  /** One turn of the loop: skip a pull request whose creator is not among
      the filters, otherwise build its record. */
  function Step(pr: Json, repo: Json, filters: CreatorFilters): Result<Option<PullRequestRecord>, FetchError> {
    if Filtering(filters) then
      match Login(pr)
      case Err(e) => Err(e)
      case Ok(login) =>
        match Among(login, filters)
        case Err(e) => Err(e)
        case Ok(passes) =>
          if !passes then Ok(None)
          else match Project(pr, repo)
            case Err(e) => Err(e)
            case Ok(rec) => Ok(Some(rec))
    else match Project(pr, repo)
      case Err(e) => Err(e)
      case Ok(rec) => Ok(Some(rec))
  }

  /** The records of `prs`, in order, or the first error. */
  function Records(prs: seq<Json>, repo: Json, filters: CreatorFilters): Result<seq<PullRequestRecord>, FetchError> {
    if prs == [] then Ok([])
    else
      var n := |prs| - 1;
      Extend(Records(prs[..n], repo, filters), Step(prs[n], repo, filters))
  }

  /** The records so far, followed by the outcome of one more turn. */
  function Extend(acc: Result<seq<PullRequestRecord>, FetchError>, step: Result<Option<PullRequestRecord>, FetchError>)
    : Result<seq<PullRequestRecord>, FetchError>
  {
    match acc
    case Err(e) => Err(e)
    case Ok(done) =>
      match step
      case Err(e) => Err(e)
      case Ok(None) => Ok(done)
      case Ok(Some(rec)) => Ok(done + [rec])
  }

  /** What `get_pull_requests(repo, creator_filters)` returns. */
  ghost function PullRequestsOf(server: Server, repo: Json, filters: CreatorFilters): Result<seq<PullRequestRecord>, FetchError>
    requires Ends(server, PullsOf(repo))
  {
    Records(Flatten(Fetched(server, PullsOf(repo))), repo, filters)
  }

  /** A prefix whose records fail fails the whole list the same way. */
  lemma {:induction false} RecordsErrPrefix(prs: seq<Json>, i: nat, repo: Json, filters: CreatorFilters)
    requires i <= |prs| && Records(prs[..i], repo, filters).Err?
    ensures Records(prs, repo, filters) == Records(prs[..i], repo, filters)
    decreases |prs| - i
  {
    if i < |prs| {
      assert prs[..i + 1][..i] == prs[..i];
      RecordsErrPrefix(prs, i + 1, repo, filters);
    } else {
      assert prs[..i] == prs;
    }
  }

  /** A turn that does not raise extends the records of the prefix by what
      it gives. */
  lemma RecordsStep(prs: seq<Json>, i: nat, repo: Json, filters: CreatorFilters,
                    done: seq<PullRequestRecord>, out: seq<PullRequestRecord>)
    requires i < |prs| && Records(prs[..i], repo, filters) == Ok(done)
    requires Step(prs[i], repo, filters).Ok?
    requires out == match Step(prs[i], repo, filters).value
      case None => done
      case Some(rec) => done + [rec]
    ensures Records(prs[..i + 1], repo, filters) == Ok(out)
  {
    RecordsLast(prs, i, repo, filters);
  }

  /** A turn that raises ends the whole loop with its error. */
  lemma RecordsStopAt(prs: seq<Json>, i: nat, repo: Json, filters: CreatorFilters, done: seq<PullRequestRecord>)
    requires i < |prs| && Records(prs[..i], repo, filters) == Ok(done)
    requires Step(prs[i], repo, filters).Err?
    ensures Records(prs, repo, filters) == Err(Step(prs[i], repo, filters).error)
  {
    RecordsLast(prs, i, repo, filters);
    RecordsErrPrefix(prs, i + 1, repo, filters);
  }

  lemma RecordsLast(prs: seq<Json>, i: nat, repo: Json, filters: CreatorFilters)
    requires i < |prs|
    ensures Records(prs[..i + 1], repo, filters) == Extend(Records(prs[..i], repo, filters), Step(prs[i], repo, filters))
  {
    assert prs[..i + 1][..i] == prs[..i];
  }

  /** The body of the loop of `get_pull_requests` for one pull request:
      `continue` when the creator is filtered out, otherwise the record. */
  method Turn(pr: Json, repo: Json, filters: CreatorFilters)
    returns (step: Result<Option<PullRequestRecord>, FetchError>)
    ensures step == Step(pr, repo, filters)
  {
    if Filtering(filters) {
      var login := Login(pr);
      if login.Err? {
        return Err(login.error);
      }
      var passes := Among(login.value, filters);
      if passes.Err? {
        return Err(passes.error);
      }
      if !passes.value {
        return Ok(None);
      }
    }
    var rec := Project(pr, repo);
    if rec.Err? {
      return Err(rec.error);
    }
    step := Ok(Some(rec.value));
  }

  /** The loop of `get_pull_requests` over the flattened pages. */
  method CollectRecords(flat: seq<Json>, repo: Json, filters: CreatorFilters)
    returns (r: Result<seq<PullRequestRecord>, FetchError>)
    ensures r == Records(flat, repo, filters)
  {
    var out: seq<PullRequestRecord> := [];
    var i := 0;
    while i < |flat|
      invariant 0 <= i <= |flat|
      invariant Records(flat[..i], repo, filters) == Ok(out)
    {
      var step := Turn(flat[i], repo, filters);
      if step.Err? {
        RecordsStopAt(flat, i, repo, filters, out);
        return Err(step.error);
      }
      ghost var before := out;
      if step.value.Some? {
        out := out + [step.value.value];
      }
      RecordsStep(flat, i, repo, filters, before, out);
      i := i + 1;
    }
    assert flat[..|flat|] == flat;
    r := Ok(out);
  }

  /** `get_pull_requests`: fetch every page, flatten them, and append one
      record per pull request that passes the creator filter. */
  method GetPullRequests(server: Server, repo: Json, filters: CreatorFilters)
    returns (r: Result<seq<PullRequestRecord>, FetchError>)
    requires Ends(server, PullsOf(repo))
    ensures r == PullRequestsOf(server, repo, filters)
  {
    var allData, _ := HandlePagination(server, PullsOf(repo));
    r := CollectRecords(Flatten(allData), repo, filters);
  }

  /** A pull request with every field the record reads. */
  predicate WellFormedPR(pr: Json) {
    && Subscript(pr, "title").Ok? && Login(pr).Ok?
    && Subscript(pr, "created_at").Ok? && Subscript(pr, "html_url").Ok?
  }

  /** The creator test of the loop: no filter, or the login is among the
      filters. */
  predicate CreatorPasses(pr: Json, filters: CreatorFilters) {
    !Filtering(filters) || (Login(pr).Ok? && Among(Login(pr).value, filters) == Ok(true))
  }

  /** The creator test does not raise: no filter, or a login the filter
      can be compared with. */
  predicate Comparable(pr: Json, filters: CreatorFilters) {
    !Filtering(filters) || (Login(pr).Ok? && Among(Login(pr).value, filters).Ok?)
  }

  function Kept(filters: CreatorFilters): Json -> bool {
    (pr: Json) => CreatorPasses(pr, filters)
  }

  function RecordOf(repo: Json): Json -> PullRequestRecord {
    (pr: Json) => PullRequestRecord(repo,
      Subscript(pr, "title").GetOr(JNull), Login(pr).GetOr(JNull),
      Subscript(pr, "created_at").GetOr(JNull), Subscript(pr, "html_url").GetOr(JNull))
  }

  /** On a well-formed pull request one more turn of the loop appends its
      record exactly when its creator passes the filter. */
  lemma ExtendWellFormed(pr: Json, repo: Json, filters: CreatorFilters, done: seq<PullRequestRecord>)
    requires WellFormedPR(pr) && Comparable(pr, filters)
    ensures Extend(Ok(done), Step(pr, repo, filters))
      == Ok(done + if Kept(filters)(pr) then [RecordOf(repo)(pr)] else [])
  {
    assert done + [] == done;
  }

  lemma SiftLast(prs: seq<Json>, keep: Json -> bool, f: Json -> PullRequestRecord)
    requires prs != []
    ensures Sift(prs, keep, f) == Sift(prs[..|prs| - 1], keep, f) + (if keep(prs[|prs| - 1]) then [f(prs[|prs| - 1])] else [])
  {
  }

  lemma {:induction false} RecordsSift(prs: seq<Json>, repo: Json, filters: CreatorFilters)
    requires forall i :: 0 <= i < |prs| ==> WellFormedPR(prs[i]) && Comparable(prs[i], filters)
    ensures Records(prs, repo, filters) == Ok(Sift(prs, Kept(filters), RecordOf(repo)))
  {
    if prs != [] {
      var n := |prs| - 1;
      assert forall i :: 0 <= i < n ==> prs[..n][i] == prs[i];
      RecordsSift(prs[..n], repo, filters);
      SiftLast(prs, Kept(filters), RecordOf(repo));
      ExtendWellFormed(prs[n], repo, filters, Sift(prs[..n], Kept(filters), RecordOf(repo)));
    }
  }

  /** Over well-formed pull requests `get_pull_requests` raises nothing: it
      keeps, in their order, exactly those whose creator login is among the
      filters (all of them when the filters are None or empty), and each
      record holds `repo` and the fields of its pull request. */
  lemma RecordsSelect(prs: seq<Json>, repo: Json, filters: CreatorFilters)
    requires forall i :: 0 <= i < |prs| ==> WellFormedPR(prs[i]) && Comparable(prs[i], filters)
    ensures Records(prs, repo, filters).Ok?
    ensures var r, idx := Records(prs, repo, filters).value, KeptIndices(prs, Kept(filters));
      && |r| == |idx| <= |prs|
      && Ascending(idx)
      && (forall j :: 0 <= j < |idx| ==>
            && CreatorPasses(prs[idx[j]], filters)
            && r[j].repository == repo
            && Subscript(prs[idx[j]], "title") == Ok(r[j].prTitle)
            && Login(prs[idx[j]]) == Ok(r[j].createdBy)
            && Subscript(prs[idx[j]], "created_at") == Ok(r[j].createdAt)
            && Subscript(prs[idx[j]], "html_url") == Ok(r[j].url))
      && (forall i :: 0 <= i < |prs| && CreatorPasses(prs[i], filters) ==> i in idx)
  {
    RecordsSift(prs, repo, filters);
    SiftSelects(prs, Kept(filters), RecordOf(repo));
  }

  /** Every record of `get_pull_requests(repo, ...)` names `repo`. */
  lemma {:induction false} RecordsName(prs: seq<Json>, repo: Json, filters: CreatorFilters)
    requires Records(prs, repo, filters).Ok?
    ensures forall j :: 0 <= j < |Records(prs, repo, filters).value| ==>
      Records(prs, repo, filters).value[j].repository == repo
  {
    if prs != [] {
      var n := |prs| - 1;
      var acc, step := Records(prs[..n], repo, filters), Step(prs[n], repo, filters);
      assert Records(prs, repo, filters) == Extend(acc, step);
      assert acc.Ok?;
      RecordsName(prs[..n], repo, filters);
      ExtendName(acc, step, repo);
    }
  }

  /** Every record of `get_pull_requests(repo, ...)` names `repo`. */
  lemma PullRequestsOfName(server: Server, repo: Json, filters: CreatorFilters)
    requires Ends(server, PullsOf(repo)) && PullRequestsOf(server, repo, filters).Ok?
    ensures forall j :: 0 <= j < |PullRequestsOf(server, repo, filters).value| ==>
      PullRequestsOf(server, repo, filters).value[j].repository == repo
  {
    RecordsName(Flatten(Fetched(server, PullsOf(repo))), repo, filters);
  }

  /** One more turn keeps every record naming `repo`. */
  lemma ExtendName(acc: Result<seq<PullRequestRecord>, FetchError>, step: Result<Option<PullRequestRecord>, FetchError>, repo: Json)
    requires acc.Ok? && forall j :: 0 <= j < |acc.value| ==> acc.value[j].repository == repo
    requires step.Ok? && step.value.Some? ==> step.value.value.repository == repo
    requires Extend(acc, step).Ok?
    ensures forall j :: 0 <= j < |Extend(acc, step).value| ==> Extend(acc, step).value[j].repository == repo
  {
  }

  /** Without a filter every pull request gives one record. */
  lemma {:induction false} UnfilteredKeepsAll(prs: seq<Json>, repo: Json, filters: CreatorFilters)
    requires !Filtering(filters)
    requires forall i :: 0 <= i < |prs| ==> WellFormedPR(prs[i])
    ensures Records(prs, repo, filters).Ok? && |Records(prs, repo, filters).value| == |prs|
  {
    if prs != [] {
      UnfilteredKeepsAll(prs[..|prs| - 1], repo, filters);
    }
  }

  // ---------------------------------------------------------------- members and repositories

  /** `[item[key] for item in items]`, or the first error. */
  function Column(items: seq<Json>, key: string): Result<seq<Json>, FetchError> {
    if items == [] then Ok([])
    else
      var n := |items| - 1;
      match Column(items[..n], key)
      case Err(e) => Err(e)
      case Ok(acc) =>
        match Subscript(items[n], key)
        case Err(e) => Err(e)
        case Ok(x) => Ok(acc + [x])
  }

  /** The column succeeds exactly when every item is a dict holding the
      key, and then has one entry per item, in order. */
  lemma {:induction false} ColumnSpec(items: seq<Json>, key: string)
    ensures Column(items, key).Ok? <==> forall i :: 0 <= i < |items| ==> Subscript(items[i], key).Ok?
    ensures Column(items, key).Ok? ==>
      && |Column(items, key).value| == |items|
      && forall i :: 0 <= i < |items| ==> Column(items, key).value[i] == Subscript(items[i], key).value
  {
    if items != [] {
      var n := |items| - 1;
      ColumnSpec(items[..n], key);
      assert forall i :: 0 <= i < n ==> items[..n][i] == items[i];
    }
  }

  lemma {:induction false} ColumnErrPrefix(items: seq<Json>, i: nat, key: string)
    requires i <= |items| && Column(items[..i], key).Err?
    ensures Column(items, key) == Column(items[..i], key)
    decreases |items| - i
  {
    if i < |items| {
      assert items[..i + 1][..i] == items[..i];
      ColumnErrPrefix(items, i + 1, key);
    } else {
      assert items[..i] == items;
    }
  }

  /** The append loop shared by `get_team_members` and
      `get_team_repositories`. */
  method CollectField(flat: seq<Json>, key: string) returns (r: Result<seq<Json>, FetchError>)
    ensures r == Column(flat, key)
  {
    var out: seq<Json> := [];
    var i := 0;
    while i < |flat|
      invariant 0 <= i <= |flat|
      invariant Column(flat[..i], key) == Ok(out)
    {
      assert flat[..i + 1][..i] == flat[..i];
      var x := Subscript(flat[i], key);
      if x.Err? {
        ColumnErrPrefix(flat, i + 1, key);
        return Err(x.error);
      }
      out := out + [x.value];
      i := i + 1;
    }
    assert flat[..|flat|] == flat;
    r := Ok(out);
  }

  /** What `get_team_members(org, team_slug)` returns. */
  ghost function TeamMembers(server: Server, org: Json, team: Json): Result<seq<Json>, FetchError>
    requires Ends(server, TeamMembersOf(org, team))
  {
    Column(Flatten(Fetched(server, TeamMembersOf(org, team))), "login")
  }

  /** What `get_team_repositories(org, team_slug)` returns. */
  ghost function TeamRepositories(server: Server, org: Json, team: Json): Result<seq<Json>, FetchError>
    requires Ends(server, TeamReposOf(org, team))
  {
    Column(Flatten(Fetched(server, TeamReposOf(org, team))), "full_name")
  }

  /** `get_team_members`: one login per member, in page order. */
  method GetTeamMembers(server: Server, org: Json, team: Json) returns (r: Result<seq<Json>, FetchError>)
    requires Ends(server, TeamMembersOf(org, team))
    ensures r == TeamMembers(server, org, team)
  {
    var allData, _ := HandlePagination(server, TeamMembersOf(org, team));
    r := CollectField(Flatten(allData), "login");
  }

  /** `get_team_repositories`: one full name per repository, in page
      order. */
  method GetTeamRepositories(server: Server, org: Json, team: Json) returns (r: Result<seq<Json>, FetchError>)
    requires Ends(server, TeamReposOf(org, team))
    ensures r == TeamRepositories(server, org, team)
  {
    var allData, _ := HandlePagination(server, TeamReposOf(org, team));
    r := CollectField(Flatten(allData), "full_name");
  }

  /** When it succeeds, `get_team_repositories` has exactly as many names
      as the pages have items, the i-th being the `full_name` of the i-th
      item. */
  lemma TeamRepositoriesCount(server: Server, org: Json, team: Json)
    requires Ends(server, TeamReposOf(org, team))
    requires TeamRepositories(server, org, team).Ok?
    ensures var pages := Fetched(server, TeamReposOf(org, team));
      && |TeamRepositories(server, org, team).value| == |Flatten(pages)| == TotalLength(pages)
      && forall i :: 0 <= i < |Flatten(pages)| ==>
           Subscript(Flatten(pages)[i], "full_name") == Ok(TeamRepositories(server, org, team).value[i])
  {
    var pages := Fetched(server, TeamReposOf(org, team));
    ColumnSpec(Flatten(pages), "full_name");
    FlattenLength(pages);
  }
}
