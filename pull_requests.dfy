/** The cross-repository listings: the pull requests of several
    repositories, or of every repository of a team, concatenated in
    repository order. */
module PullRequests {
  import opened Wrappers
  import opened Seqs
  import opened Json
  import opened GitConnector

  /** Every repository's pull request pages end. */
  ghost predicate AllEnd(server: Server, repos: seq<Json>) {
    forall i :: 0 <= i < |repos| ==> Ends(server, PullsOf(repos[i]))
  }

  /** `all.extend(more)` after `all`, unless one of them raised. */
  function Concat(a: Result<seq<PullRequestRecord>, FetchError>, b: Result<seq<PullRequestRecord>, FetchError>)
    : Result<seq<PullRequestRecord>, FetchError>
  {
    match a
    case Err(e) => Err(e)
    case Ok(xs) =>
      match b
      case Err(e) => Err(e)
      case Ok(ys) => Ok(xs + ys)
  }

  /** The pull requests of `repos`, repository by repository, every call
      made with the same `creator_filters`; the first error raises. */
  ghost function AllRecords(server: Server, repos: seq<Json>, filters: CreatorFilters)
    : Result<seq<PullRequestRecord>, FetchError>
    requires AllEnd(server, repos)
  {
    if repos == [] then Ok([])
    else
      var n := |repos| - 1;
      Concat(AllRecords(server, repos[..n], filters), PullRequestsOf(server, repos[n], filters))
  }

  /** `list_open_pull_requests_terminal(repos, creator_filters)` */
  method ListOpenPullRequestsTerminal(server: Server, repos: seq<Json>, filters: CreatorFilters)
    returns (r: Result<seq<PullRequestRecord>, FetchError>)
    requires AllEnd(server, repos)
    ensures r == AllRecords(server, repos, filters)
  {
    var all: seq<PullRequestRecord> := [];
    var i := 0;
    while i < |repos|
      invariant 0 <= i <= |repos|
      invariant AllRecords(server, repos[..i], filters) == Ok(all)
    {
      var openPrs := GetPullRequests(server, repos[i], filters);
      AllRecordsLast(server, repos, i, filters);
      if openPrs.Err? {
        AllRecordsErrPrefix(server, repos, i + 1, filters);
        return Err(openPrs.error);
      }
      all := all + openPrs.value;
      i := i + 1;
    }
    assert repos[..|repos|] == repos;
    r := Ok(all);
  }

  /** The listing for every repository of the team. */
  ghost function TeamRecords(server: Server, org: Json, team: Json, filters: CreatorFilters)
    : Result<seq<PullRequestRecord>, FetchError>
    requires Ends(server, TeamReposOf(org, team))
    requires TeamRepositories(server, org, team).Ok? ==> AllEnd(server, TeamRepositories(server, org, team).value)
  {
    match TeamRepositories(server, org, team)
    case Err(e) => Err(e)
    case Ok(repos) => AllRecords(server, repos, filters)
  }

  /** `list_open_pull_requests_team(org, team_slug, creator_filters)`: the
      terminal listing over the team's repositories (the source repeats the
      terminal loop verbatim; here the loop is the terminal method's). */
  method ListOpenPullRequestsTeam(server: Server, org: Json, team: Json, filters: CreatorFilters)
    returns (r: Result<seq<PullRequestRecord>, FetchError>)
    requires Ends(server, TeamReposOf(org, team))
    requires TeamRepositories(server, org, team).Ok? ==> AllEnd(server, TeamRepositories(server, org, team).value)
    ensures r == TeamRecords(server, org, team, filters)
  {
    var found := GetTeamRepositories(server, org, team);
    if found.Err? {
      return Err(found.error);
    }
    var repos := found.value;
    r := ListOpenPullRequestsTerminal(server, repos, filters);
  }

  /** One more repository appends its listing to that of the ones before. */
  lemma AllRecordsLast(server: Server, repos: seq<Json>, i: nat, filters: CreatorFilters)
    requires AllEnd(server, repos) && i < |repos|
    ensures AllEnd(server, repos[..i + 1]) && AllEnd(server, repos[..i])
    ensures AllRecords(server, repos[..i + 1], filters)
      == Concat(AllRecords(server, repos[..i], filters), PullRequestsOf(server, repos[i], filters))
  {
    assert repos[..i + 1][..i] == repos[..i];
  }

  lemma {:induction false} AllRecordsErrPrefix(server: Server, repos: seq<Json>, i: nat, filters: CreatorFilters)
    requires AllEnd(server, repos) && i <= |repos|
    requires AllRecords(server, repos[..i], filters).Err?
    ensures AllRecords(server, repos, filters) == AllRecords(server, repos[..i], filters)
    decreases |repos| - i
  {
    if i < |repos| {
      assert repos[..i + 1][..i] == repos[..i];
      AllRecordsErrPrefix(server, repos, i + 1, filters);
    } else {
      assert repos[..i] == repos;
    }
  }

  lemma ConcatAssoc(a: Result<seq<PullRequestRecord>, FetchError>, b: Result<seq<PullRequestRecord>, FetchError>,
                    c: Result<seq<PullRequestRecord>, FetchError>)
    ensures Concat(Concat(a, b), c) == Concat(a, Concat(b, c))
  {
    if a.Ok? && b.Ok? && c.Ok? {
      assert a.value + b.value + c.value == a.value + (b.value + c.value);
    }
  }

  lemma AllEndAppend(server: Server, a: seq<Json>, b: seq<Json>)
    requires AllEnd(server, a) && AllEnd(server, b)
    ensures AllEnd(server, a + b)
  {
    assert forall i :: 0 <= i < |a + b| ==> (a + b)[i] == if i < |a| then a[i] else b[i - |a|];
  }

  /** Listing two groups of repositories is listing the first, then the
      second: the result is ordered by repository. */
  lemma {:induction false} AllRecordsAppend(server: Server, a: seq<Json>, b: seq<Json>, filters: CreatorFilters)
    requires AllEnd(server, a) && AllEnd(server, b)
    ensures AllEnd(server, a + b)
    ensures AllRecords(server, a + b, filters) == Concat(AllRecords(server, a, filters), AllRecords(server, b, filters))
  {
    AllEndAppend(server, a, b);
    if b == [] {
      assert a + b == a;
      ConcatEmpty(AllRecords(server, a, filters));
    } else {
      var n := |b| - 1;
      var front, last := b[..n], b[n];
      assert b == front + [last];
      assert a + b == (a + front) + [last];
      AllRecordsSnoc(server, front, last, filters);
      AllEndAppend(server, a, front);
      AllRecordsSnoc(server, a + front, last, filters);
      AllRecordsAppend(server, a, front, filters);
      var x, y, z := AllRecords(server, a, filters), AllRecords(server, front, filters), PullRequestsOf(server, last, filters);
      ConcatAssoc(x, y, z);
    }
  }

  /** Listing one more repository at the end appends its listing. */
  lemma AllRecordsSnoc(server: Server, xs: seq<Json>, r: Json, filters: CreatorFilters)
    requires AllEnd(server, xs + [r])
    ensures AllEnd(server, xs) && Ends(server, PullsOf(r))
    ensures AllRecords(server, xs + [r], filters) == Concat(AllRecords(server, xs, filters), PullRequestsOf(server, r, filters))
  {
    assert (xs + [r])[..|xs|] == xs;
    assert forall i :: 0 <= i < |xs| ==> xs[i] == (xs + [r])[i];
    assert (xs + [r])[|xs|] == r;
  }

  lemma ConcatEmpty(a: Result<seq<PullRequestRecord>, FetchError>)
    ensures Concat(a, Ok([])) == a
  {
    if a.Ok? {
      assert a.value + [] == a.value;
    }
  }

  /** One repository lists exactly what `get_pull_requests` gives for it. */
  lemma AllRecordsSingle(server: Server, repo: Json, filters: CreatorFilters)
    requires Ends(server, PullsOf(repo))
    ensures AllEnd(server, [repo])
    ensures AllRecords(server, [repo], filters) == PullRequestsOf(server, repo, filters)
  {
    var none: seq<Json> := [];
    assert [repo][..0] == none;
    if PullRequestsOf(server, repo, filters).Ok? {
      var prs := PullRequestsOf(server, repo, filters).value;
      var empty: seq<PullRequestRecord> := [];
      assert empty + prs == prs;
    }
  }

  /** The number of records over `repos`, when none of the calls raises. */
  ghost function RecordCount(server: Server, repos: seq<Json>, filters: CreatorFilters): nat
    requires AllEnd(server, repos)
  {
    if repos == [] then 0
    else
      var n := |repos| - 1;
      RecordCount(server, repos[..n], filters)
        + |PullRequestsOf(server, repos[n], filters).GetOr([])|
  }

  /** When no repository's listing raises, the combined listing succeeds
      and its length is the sum of the per-repository lengths. */
  lemma {:induction false} AllRecordsCount(server: Server, repos: seq<Json>, filters: CreatorFilters)
    requires AllEnd(server, repos)
    requires forall i :: 0 <= i < |repos| ==> PullRequestsOf(server, repos[i], filters).Ok?
    ensures AllRecords(server, repos, filters).Ok?
    ensures |AllRecords(server, repos, filters).value| == RecordCount(server, repos, filters)
  {
    if repos != [] {
      var n := |repos| - 1;
      var init, r := repos[..n], repos[n];
      assert repos == init + [r];
      AllRecordsSnoc(server, init, r, filters);
      assert forall i :: 0 <= i < n ==> init[i] == repos[i];
      AllRecordsCount(server, init, filters);
      assert PullRequestsOf(server, r, filters).Ok?;
    }
  }

  /** Every record of a successful listing names one of the repositories
      listed. */
  lemma {:induction false} AllRecordsNames(server: Server, repos: seq<Json>, filters: CreatorFilters)
    requires AllEnd(server, repos)
    requires AllRecords(server, repos, filters).Ok?
    ensures forall j :: 0 <= j < |AllRecords(server, repos, filters).value| ==>
      AllRecords(server, repos, filters).value[j].repository in repos
  {
    if repos != [] {
      var n := |repos| - 1;
      var init, r := repos[..n], repos[n];
      assert repos == init + [r];
      AllRecordsSnoc(server, init, r, filters);
      AllRecordsNames(server, init, filters);
      PullRequestsOfName(server, r, filters);
      var front, last := AllRecords(server, init, filters).value, PullRequestsOf(server, r, filters).value;
      NamesAppend(front, last, init, r);
      assert AllRecords(server, repos, filters).value == front + last;
    }
  }

  /** Records naming repositories of `init`, then records naming `r`, all
      name repositories of `init + [r]`. */
  lemma NamesAppend(front: seq<PullRequestRecord>, last: seq<PullRequestRecord>, init: seq<Json>, r: Json)
    requires forall j :: 0 <= j < |front| ==> front[j].repository in init
    requires forall j :: 0 <= j < |last| ==> last[j].repository == r
    ensures forall j :: 0 <= j < |front + last| ==> (front + last)[j].repository in init + [r]
  {
    forall j | 0 <= j < |front + last| ensures (front + last)[j].repository in init + [r] {
      if j < |front| {
        var k :| 0 <= k < |init| && init[k] == front[j].repository;
        assert (init + [r])[k] == init[k];
      } else {
        assert (front + last)[j] == last[j - |front|];
      }
    }
  }

}
