# custom-tools core, modelled in Dafny

This project models the core of a small personal GitHub tool kit. It proves properties of that model.

The tool kit has six core parts:

- **GitHub REST wrapper** (`github/client.py`).
  - A status gate turns a non-2xx response into an error naming the status and body.
  - `get` follows `Link: <...>; rel="next"` headers and concatenates list pages.
  - `GitHubResponse` holds a decoded value. Its read-only projections are `getFields` (dot-path fields), `pluck`, `head`, `last`, `take` and `value`.
  - `delete` treats 200 and 204 as success.
- **Counter-based pagination** (`git_connector.py`). Pages 1, 2, … are fetched with `per_page=100` until an empty page or a non-200 status. Three projections sit on top of it:
  - pull requests of a repository, as records filtered by creator;
  - the logins of a team's members;
  - the full names of a team's repositories.
- **Cross-repository listings** (`pull_requests.py`). The pull requests of several repositories, or of every repository of a team, are concatenated in repository order.
- **JSON tree viewer** (`interface/JsonTreeViewer.py`).
  - A search query, lowered and stripped, prunes a document to the branches that mention it.
  - List items are labelled by a chosen key or by their position.
  - Primitives are rendered as styled text.
- **YAML settings** (`config/yaml_parser.py`).
  - A loaded document is read with `get`, with the dot-path `get_nested`, and as the `github` and `local` sections with their defaults.
  - It is reloaded from disk by `reload`.
- **Unlock-pattern progress** (`DO_NOT_COMMIT/lock_screen.py`).
  - A list of patterns has one completion flag each and a current position.
  - The position is moved by Next, Previous and Mark-as-Complete.
  - `draw_pattern` shows a pattern's lines and the completion counts.

Modules follow the source files: `GitHubClient`, `GitConnector`, `PullRequests`, `JsonTreeViewer`, `YamlParser` and `LockScreen`. Four modules hold what they share:

- `Json`: decoded values, `dict.get`, the dot-path walk, `str` and truthiness.
- `PyStr`: `str.split`/`join`/`find`/`in`/`lower`/`strip`, slicing and `str(int)`.
- `Seqs`: filtered comprehensions, flattening, `list.count` and `list.index`.
- `Wrappers`: `Option` for `None` and `Result` for a raised exception.

The network is an input.

- `get` receives the responses the server gives, in order. It returns the requests it sent along with its result.
- `handle_pagination` receives the server as a function from endpoint and page request to page.
- Loops that update state in the source are methods with loop invariants, proved equal to specification functions. Properties of those functions are proved as lemmas.
- The two pieces of mutable state are classes:
  - the loaded YAML document (`YamlConfig`);
  - the lock screen's flags and position (`PatternProgress`).

Some behaviour of the code is worth stating plainly:

- `take(n)` raises `IndexError` on a non-empty list when n lies outside `[-len, len)`.
- `handle_pagination` keeps the pages gathered before a failing status and prints a message. A failing page therefore ends one repository's listing early, with the pages fetched so far, and the cross-repository listing goes on.
- A pull request without one of the fields read (`git_connector.py:44-51`) raises KeyError or TypeError. That exception ends the whole cross-repository listing.
- Repositories are fetched one after the other. There is no worker pool.
- `creator_filters` is None, a list of logins, or the string typed at the navigator's prompt (`navigator.py:133-137`). On a string, `login in creator_filters` is a substring test, and a login that is not a string raises TypeError.

## Model

| member | source | states |
|---|---|---|
| GitHubClient.HandleResponse | github/client.py:6-13 | succeeds exactly for a status in [200, 300); the value is the decoded JSON, or the raw text when the body is not JSON; otherwise the error carries the status and body |
| GitHubClient.ErrorMessageInjective | github/client.py:13 | the message `GitHub API Error {status}: {text}` determines both the status code and the body |
| GitHubClient.GetNested | github/client.py:16-24 | the loop returns the value at the dot path when every segment is present through dicts, and None when a key is missing or a non-dict is met |
| GitHubClient.Extracted | github/client.py:36-47 | the dict comprehension's keys are exactly the requested fields, each once, in the order each was first requested, and each value is `_get_nested` of its own field |
| GitHubClient.ExtractFields | github/client.py:36-47 | the comprehension, as a loop, builds exactly `Extracted` |
| GitHubClient.GetFields | github/client.py:31-50 | on a list: one extracted dict per dict item, in order. On a dict: one extracted dict. Anything else gives None |
| GitHubClient.GetFieldsOnList | github/client.py:32-41 | on a list, `getFields` keeps every dict item and only dict items, in order. Each output has exactly the requested keys, bound to the nested lookups of its own item |
| GitHubClient.Pluck | github/client.py:52-55 | on a list, every dict item's `item.get(field)`, in order, non-dict items skipped; None on a non-list |
| GitHubClient.PluckAgreesWithGetFields | github/client.py:31-55 | for a field without dots, `pluck` yields the same values as the one-field `getFields`, each unwrapped from its one-member dict |
| GitHubClient.Take | github/client.py:67-70 | raises exactly when the list is non-empty and n lies outside [-len, len); otherwise gives item n, counted from the end when negative; None on an empty list or a non-list |
| GitHubClient.Head | github/client.py:57-60 | `head()` is `take(0)`, which never raises |
| GitHubClient.Last | github/client.py:62-65 | `last()` is `take(-1)`, which never raises |
| GitHubClient.Value | github/client.py:75-76 | definition: the wrapped value. Used by `PluckAgreesWithGetFields` and the client's callers |
| GitHubClient.PositionalAgree | github/client.py:57-70 | `head` is `take(0)`; `last` is `take(-1)` and `take(len-1)`; on an empty list or a non-list all three give None without raising |
| GitHubClient.NextUrl | github/client.py:105-110 | no next URL exactly when no comma-separated part contains `rel="next"` |
| GitHubClient.NextUrlIsLastMarked | github/client.py:106-110 | when a next URL is found, it is the target of the last part marked `rel="next"` |
| GitHubClient.NextLink | github/client.py:105-110 | the scan over the header's parts computes `NextUrl` of the split header |
| GitHubClient.TargetOfRendered | github/client.py:109 | the slice between the first `<` and the first `>` of a link-value `<url>; rel="..."` is its URL |
| GitHubClient.MarkedIffNext | github/client.py:108 | a rendered link-value contains `rel="next"` exactly when its relation type is `next` |
| GitHubClient.HeaderRoundTrip | github/client.py:105-110 | on a header of comma-separated link-values `lead<url>; rel="rel"`, with no `,`, `<`, `>` or `"` in any lead, url or rel, the scan yields the URL of the last link whose relation is `next`, and None when there is none |
| GitHubClient.Get | github/client.py:92-113 | the first request uses the endpoint and the caller's parameters; each later one uses the previous page's next URL without parameters. Every page but the last continues and the last does not. The result is `Paginate` of the responses |
| GitHubClient.Paginate | github/client.py:96-113 | definition of the pagination loop's outcome over the responses; properties in `PaginateSkip` and `PaginateOutcome`, and `Get` is proved equal to it |
| GitHubClient.PaginateSkip | github/client.py:96-104 | continuing list pages only append their items, in fetch order |
| GitHubClient.PaginateOutcome | github/client.py:96-113 | the first page that does not continue decides the result. A non-2xx status raises and discards the gathered pages. A 2xx non-list is returned alone. A 2xx list completes the concatenation of every page, in fetch order |
| GitHubClient.EmptyFirstPage | github/client.py:92-113 | one 2xx empty list with no next link yields an empty list |
| GitHubClient.Delete | github/client.py:130-135 | gives True exactly for 200 and 204. Any other 2xx is wrapped. Any non-2xx raises with its status and body |
| GitConnector.FirstStop | git_connector.py:23-33 | the position of the first page that ends the loop, with no earlier page ending it |
| GitConnector.HandlePagination | git_connector.py:20-34 | requests go to pages 1, 2, … with `per_page` 100, up to and including the first page that stops the loop. The result is exactly the pages before that one |
| GitConnector.FetchedPages | git_connector.py:20-34 | every returned page was a 200 response with a non-empty list, in request order. The page that stopped the loop was empty or failed, and no earlier page did either |
| GitConnector.SubscriptSpec | git_connector.py:44-51 | `v[k]` succeeds exactly on a dict holding k, giving a value stored under k. It raises KeyError on a dict without k and TypeError on a non-dict |
| GitConnector.Among | git_connector.py:44 | `login in creator_filters`: list membership on a list of logins; a substring test on a typed string, raising TypeError for a non-string login; TypeError on None |
| GitConnector.AmongTyped | git_connector.py:44 | under a typed filter a string login passes exactly when it occurs at some position of the typed text |
| GitConnector.TypedFilterIsSubstring | git_connector.py:44 | the login `ali` passes the typed filter `alice`; `bob` fails the list `[alice]`; the number 7 raises under a typed filter |
| GitConnector.Project | git_connector.py:46-52 | definition: the record dict, fields read in the literal's order; properties in `RecordsSelect` |
| GitConnector.Step | git_connector.py:44-52 | definition of one turn; properties in `Turn` and `RecordsSelect` |
| GitConnector.Records | git_connector.py:43-53 | definition of the loop's outcome over the flattened list; properties in `RecordsSelect`, `RecordsErrPrefix`, `RecordsName` and `UnfilteredKeepsAll` |
| GitConnector.Turn | git_connector.py:44-53 | one pass of the loop body: with a truthy filter, read the creator's login and skip the pull request when it is not `in` the filter (list membership or substring), raising when the test raises; otherwise build its record, raising on a missing field |
| GitConnector.CollectRecords | git_connector.py:43-54 | the loop over the flattened pages computes the records of every pull request in order, or the first error raised |
| GitConnector.GetPullRequests | git_connector.py:37-54 | fetching every page, flattening them and running the loop computes the records of the repository's pull requests |
| GitConnector.RecordsErrPrefix | git_connector.py:43-53 | an error raised on a prefix of the pull requests is the error of the whole call |
| GitConnector.RecordsSelect | git_connector.py:43-53 | over well-formed pull requests whose logins the filter can be tested against (any login under a list, a string login under a typed string), nothing raises. Exactly those whose creator passes the filter are kept, in order. Each record holds `repo` and its pull request's title, creator login, creation time and URL |
| GitConnector.RecordsName | git_connector.py:47 | every record of a successful call names the repository asked for |
| GitConnector.UnfilteredKeepsAll | git_connector.py:44 | with no filter, or an empty one, every well-formed pull request gives one record |
| GitConnector.Column | git_connector.py:62-64 | definition of the `[item[key]]` loop's outcome; properties in `ColumnSpec` |
| GitConnector.ColumnSpec | git_connector.py:62-64 | the `[item[key]]` loop succeeds exactly when every item is a dict holding the key. It then gives one entry per item, in order |
| GitConnector.CollectField | git_connector.py:62-64 | the append loop of team members and team repositories computes that column |
| GitConnector.GetTeamMembers | git_connector.py:57-65 | the logins of every member on every page, in page order |
| GitConnector.GetTeamRepositories | git_connector.py:68-77 | the full names of every repository on every page, in page order |
| GitConnector.TeamRepositoriesCount | git_connector.py:72-76 | on success there is one name per fetched item (the total of the page lengths), and name i is `full_name` of item i |
| PullRequests.ListOpenPullRequestsTerminal | pull_requests.py:4-11 | the loop computes the repository-by-repository concatenation of `get_pull_requests`, or the first error raised |
| PullRequests.ListOpenPullRequestsTeam | pull_requests.py:14-22 | the same listing over the team's repositories, or the error of fetching them |
| PullRequests.AllRecords | pull_requests.py:4-11 | definition: the per-repository listings concatenated in repository order, or the first error; properties in the `AllRecords…` lemmas |
| PullRequests.TeamRecords | pull_requests.py:14-22 | definition: the team's repositories, then `AllRecords` over them; `ListOpenPullRequestsTeam` is proved equal to it |
| PullRequests.AllRecordsErrPrefix | pull_requests.py:7-9 | a repository whose listing raises ends the whole call with that error |
| PullRequests.AllRecordsAppend | pull_requests.py:4-11 | listing two groups of repositories is listing the first, then the second, so the result is ordered by repository |
| PullRequests.AllRecordsSingle | pull_requests.py:4-11 | one repository lists exactly its `get_pull_requests` |
| PullRequests.AllRecordsCount | pull_requests.py:7-9 | when no repository raises, the listing succeeds and its length is the sum of the per-repository lengths |
| PullRequests.AllRecordsNames | pull_requests.py:7-9 | every record of a successful listing names one of the repositories listed |
| JsonTreeViewer.MatchAny | interface/JsonTreeViewer.py:130-138 | definition: the query occurs in the lowered serialisation of a container or the lowered `str` of a primitive; properties in `MatchAnyLowered` |
| JsonTreeViewer.MatchText | interface/JsonTreeViewer.py:131-138 | definition: `json.dumps` of a container and `str` of a primitive |
| JsonTreeViewer.MatchAnyLowered | interface/JsonTreeViewer.py:130-138 | a match is exactly an occurrence of the query in the lowered text; the empty query matches every value; a query holding an upper-case letter matches none |
| JsonTreeViewer.Filtered | interface/JsonTreeViewer.py:104-128 | filtering keeps a dict a dict and a list a list, and returns a primitive unchanged |
| JsonTreeViewer.FilterJson | interface/JsonTreeViewer.py:104-128 | the recursive loops compute the filtered document |
| JsonTreeViewer.ObjectFilterSelects | interface/JsonTreeViewer.py:106-116 | a filtered dict keeps, in order, exactly the entries whose lowered key contains the query or whose value matches. Keys are unchanged; primitive values are copied and container values filtered |
| JsonTreeViewer.ArrayFilterSelects | interface/JsonTreeViewer.py:118-126 | a filtered list keeps, in order, exactly the matching items, each copied when primitive and filtered when a container |
| JsonTreeViewer.FilterKeepsDistinctKeys | interface/JsonTreeViewer.py:107-116 | a dict with distinct keys filters to a dict with distinct keys, so appending each kept entry is what `result[key] = …` does |
| JsonTreeViewer.FilterEmptyQuery | interface/JsonTreeViewer.py:104-138 | the empty query keeps the whole document unchanged |
| JsonTreeViewer.Normalize | interface/JsonTreeViewer.py:91 | definition: `lower()` then `strip()`; properties in `NormalizeIdempotent` and `PyStr.Strip` |
| JsonTreeViewer.Displayed | interface/JsonTreeViewer.py:91-100 | definition: the original document for an empty normalised query, the filtered one otherwise; properties in `DisplayedIsFiltered` |
| JsonTreeViewer.NormalizeIdempotent | interface/JsonTreeViewer.py:91 | the query `lower().strip()` is idempotent |
| JsonTreeViewer.DisplayedIsFiltered | interface/JsonTreeViewer.py:91-100 | the shown document is always the original filtered by the normalised query, the empty-query branch included. Typing an already normalised query shows the same document |
| JsonTreeViewer.ListLabel | interface/JsonTreeViewer.py:53-61 | the label is bold magenta. It is the `str` of the item's label-key value when the item is a dict with that key; otherwise it is `[index]` |
| JsonTreeViewer.IndexLabelsDistinct | interface/JsonTreeViewer.py:61 | items labelled by position at different positions get different labels |
| JsonTreeViewer.FormatPrimitive | interface/JsonTreeViewer.py:75-84 | definition of the rendering as written, tests in the source's order; properties in `FormatPrimitiveBoolAsNumber` |
| JsonTreeViewer.FormatPrimitiveIntended | interface/JsonTreeViewer.py:75-84 | definition of the rendering with the bool test first; properties in `FormatPrimitiveIntendedBools` |
| JsonTreeViewer.FormatPrimitiveBoolAsNumber | interface/JsonTreeViewer.py:75-84 | as written, `True` renders as `True` in magenta and no value ever renders in yellow |
| JsonTreeViewer.FormatPrimitiveIntendedBools | interface/JsonTreeViewer.py:80-81 | with the bool test first, a bool renders as `true`/`false` in yellow; every other value renders as the code renders it |
| YamlParser.PyGet | config/yaml_parser.py:45-46 | `.get` fails exactly on a non-dict. Otherwise it gives the value stored under the key, or the default when the key is absent |
| YamlParser.OrEmpty | config/yaml_parser.py:39 | `safe_load(f) or {}` keeps a truthy document and gives the empty dict for a falsy one |
| YamlParser.GithubDefaults | config/yaml_parser.py:14-22 | a missing or empty `github` section gives empty lists and empty strings |
| YamlParser.GithubSection | config/yaml_parser.py:14-22 | definition of the `github` section's reading; properties in `GithubDefaults`, `GithubReadsSection` and `SectionNotDict` |
| YamlParser.GithubReadsSection | config/yaml_parser.py:14-22 | each GitHub setting present in a dict section is taken as written, and each absent one takes its default: the empty string for `organisation` and `team`, the empty list for `active-team-members` and `ignored-repositories` |
| YamlParser.LocalSection | config/yaml_parser.py:24-26 | definition of the `local` section's reading; properties in `LocalDefaults` and `SectionNotDict` |
| YamlParser.ConfigOf | config/yaml_parser.py:14-32 | definition: both sections read from the document, `github` first; properties in `EmptyFileDefaults` and `SectionNotDict` |
| YamlParser.SectionNotDict | config/yaml_parser.py:15-25 | a `github` or `local` entry that is not a dict makes construction fail with AttributeError |
| YamlParser.LocalDefaults | config/yaml_parser.py:24-26 | a missing `local` section, or one without `active-working-directory`, gives the empty string |
| YamlParser.EmptyFileDefaults | config/yaml_parser.py:28-39 | an empty or null file gives the configuration of defaults |
| YamlParser.YamlConfig.constructor | config/yaml_parser.py:28-32 | the object holds the loaded document (`or {}`) and the record built from it |
| YamlParser.YamlConfig.Reload | config/yaml_parser.py:34-43 | a missing file raises and keeps the document; otherwise the document is replaced. The record is not rebuilt |
| YamlParser.YamlConfig.Get | config/yaml_parser.py:45-46 | `get(key, default)` on the held document raises AttributeError exactly when it is not a dict; otherwise gives the value stored under a present key, and the default for an absent one |
| YamlParser.YamlConfig.GetNested | config/yaml_parser.py:48-55 | the loop computes the walk down the dot path, `default` standing for a missing key and for a non-dict on the way |
| YamlParser.Open | config/yaml_parser.py:28-39 | a missing file raises FileNotFoundError, and a section that is not a dict raises too. Otherwise the new object holds the document and its record |
| YamlParser.WalkIntoDefault | config/yaml_parser.py:48-55 | on `{}`, the path `a.b` with default `{"b": 5}` answers 5, although the path is absent |
| YamlParser.NestedOrDefaultAgrees | config/yaml_parser.py:48-55 | the walk as written equals "value at the path, else the default" whenever the path is present, or the default is not a dict |
| LockScreen.FirstIncomplete | DO_NOT_COMMIT/lock_screen.py:24-28 | the first incomplete pattern's position, every earlier one being complete; 0 when all are complete |
| LockScreen.PatternLines | DO_NOT_COMMIT/lock_screen.py:62-67 | one line per consecutive pair of nodes, green exactly when the pattern is complete |
| LockScreen.PatternProgress.constructor | DO_NOT_COMMIT/lock_screen.py:21-30 | starts at the first incomplete pattern, or the first when all are complete |
| LockScreen.PatternProgress.NextPattern | DO_NOT_COMMIT/lock_screen.py:91-94 | one step forward unless already at the last; the flags are unchanged |
| LockScreen.PatternProgress.PrevPattern | DO_NOT_COMMIT/lock_screen.py:96-99 | one step back unless already at the first; the flags are unchanged |
| LockScreen.PatternProgress.MarkComplete | DO_NOT_COMMIT/lock_screen.py:101-113 | sets the current flag and moves to the next incomplete pattern after it, staying put when there is none. The position never moves back. The completed count grows by one exactly when the flag was unset |
| LockScreen.PatternProgress.DrawPattern | DO_NOT_COMMIT/lock_screen.py:43-83 | shows "Pattern index+1 of total", the first node, one line per pair and the completed/incomplete counts (summing to the total). The all-complete message shows exactly when every flag is set. An empty pattern raises |
| LockScreen.NoneIncomplete | DO_NOT_COMMIT/lock_screen.py:72-75 | the incomplete count is 0 exactly when every pattern is complete |
| Seqs.SiftSelects | github/client.py:54 | `[f(x) for x in xs if keep(x)]` keeps exactly the items that pass, in order, each transformed |
| Seqs.FlattenLength | git_connector.py:41 | the flattened pages hold exactly as many items as all pages together |
| Seqs.FlattenAppend | git_connector.py:41 | flattening distributes over concatenation of page lists |
| Seqs.CountTrueFalse | DO_NOT_COMMIT/lock_screen.py:70-72 | every flag is counted as True or as False |
| Seqs.CountUpdate | DO_NOT_COMMIT/lock_screen.py:102 | overwriting one position gains one occurrence of the new item exactly when it differed, loses that occurrence of the old item, and leaves every other count unchanged |
| Seqs.IndexOf | DO_NOT_COMMIT/lock_screen.py:107 | `index(x, start)` is the first position at or after start holding x, or raises when none does |
| PyStr.SplitJoin | github/client.py:107 | joining the parts of a split gives back the text |
| PyStr.JoinSplit | github/client.py:107 | splitting a join of separator-free parts gives back the parts |
| PyStr.ContainsAt | github/client.py:108 | `sub in s` holds exactly when sub occurs at some position of s |
| PyStr.Find | github/client.py:109 | `find` gives the first position of the character, or -1 exactly when it is absent |
| PyStr.FindFirst | github/client.py:109 | the first occurrence is found where it is when nothing before it matches |
| PyStr.Strip | interface/JsonTreeViewer.py:91 | `strip()` gives an infix with blanks only cut off on either side, neither starting nor ending in a blank |
| PyStr.DecimalInjective | github/client.py:13 | different integers print differently |
| Json.Lookup | github/client.py:21 | `d.get(k)` is None exactly when k is not a key, and otherwise a value stored under k |
| Json.WalkPlainDefault | github/client.py:16-24 | with a default that is not a dict, the dot-path walk is the path lookup with the default for a missing path |
| Json.WalkFound | config/yaml_parser.py:48-55 | the walk returns the value at a present path, whatever the default |
| Json.AtAppend | github/client.py:16-24 | following a path in two legs is following it in one |
| Json.WalkAlong | config/yaml_parser.py:51-54 | once a prefix of the path is present, the rest of the walk starts from the value found there |
| Json.WalkNonObject | config/yaml_parser.py:52-53 | meeting a non-dict before the path ends gives the default |
| Json.WalkMissingLast | config/yaml_parser.py:54 | when only the last key is missing from a dict on the path, the walk gives the default |
| PyStr.Split | github/client.py:107 | `split(sep)` gives at least one part, and no part holds the separator |
| PyStr.SplitNoSeparator | github/client.py:16-18 | a text without the separator splits into itself alone, so a dot-free field is one key |

## Left out

- `post`, `put` and `patch` (`github/client.py:115-128`) are left out. They are `_handle_response` of a single request, which `HandleResponse` models.
- `pretty_print_json` and `__repr__` are left out. They only serialise through `json.dumps`/`repr`, which are not modelled.
- The HTTP session, token, headers and the missing-token exit in both clients are left out, along with the `print` messages. These are environment and I/O.
- URL formatting in `git_connector.py` is left out. An endpoint is a datatype standing for the three URLs.
- `GitHubClient.Get`: the server's responses are a finite transcript, so running out of responses is an `Exhausted` error that the source cannot raise.
- `GitHubClient.Get` models a body that is not valid JSON as its text. When a response's `json()` itself raises anything but ValueError, that is not modelled.
- `GitConnector.HandlePagination` requires `Ends`: some page stops the loop. On a server that never returns an empty page or a failure, the source loops forever.
- `GitConnector.HandlePagination`: a 200 page is a list of items. A 200 body that is a non-empty dict is not modelled; the source would append it and flatten its keys. A 200 body that is not valid JSON is not modelled either; `response.json()` at `git_connector.py:26` would raise a JSON decoding error (a ValueError).
- `Json`: numbers are integers. Floats are not modelled, and neither is Python's `True == 1` when a list of logins holds a bool or a number.
- `GitHubClient.HeaderRoundTrip` covers link-values with one quoted `rel` parameter and no `,`, `<`, `>` or `"` inside them. Section 3 of RFC 8288 also allows commas inside a URI-Reference (the source's comma split then breaks that link-value apart), unquoted `rel=next`, several relation types in one `rel="next last"`, and other parameters. The lemma says nothing about such headers.
- `PyStr.Lower` and `PyStr.Strip` handle ASCII only. Unicode case mapping and Unicode white space are not modelled.
- `json.dumps` (for `_match_any`) and `repr` are abstract function parameters. The `str(value)` fallback taken when `dumps` raises is not modelled, since `dumps` never raises on decoded JSON.
- Building the Textual widget tree is left out: `_build_tree`, `_build_value`, `compose`, `on_mount`, node expansion. So is the `event.input.id` test. The model keeps each node's label and the document the tree is rebuilt from.
- `Json`: a Python dict is a sequence of members with distinct keys. Where a source comprehension repeats a key, the model states the result for the first binding, which has the same value.
- YAML parsing, the file system and `Path` defaulting are left out. The loaded document is an input, and a missing file is `None`.
- `models/local_config.py` is not part of this model.
- The `GithubConfig` record stands for `models/github_config.py`.
- Lock screen: CSV loading and saving, plotting, the node coordinates and the buttons are left out. So is the KeyError for a node outside 0–8. The model keeps a node as an integer.
- `LockScreen.PatternProgress`: `Valid` requires at least one pattern. With none, the source's initial `draw_pattern(0)` raises.
- `PullRequests.ListOpenPullRequestsTeam` reuses the terminal listing's loop. The source repeats the same loop verbatim.

## Findings

| source | as written | input that shows it | evidently intended | confidence | as-written member | corrected member |
|---|---|---|---|---|---|---|
| interface/JsonTreeViewer.py:78-81 | the `(int, float)` test comes before the `bool` test; a Python bool is an int, so the bool branch is dead | `True` renders as `True` in magenta | `true` in yellow, as the bool branch writes | high (not executed) | JsonTreeViewer.FormatPrimitiveBoolAsNumber | JsonTreeViewer.FormatPrimitiveIntendedBools |
| config/yaml_parser.py:51-54 | a missing key makes `default` the current value, and the walk carries on inside it when it is a dict | `{}` with path `a.b` and default `{"b": 5}` answers 5 | the default only when the path is absent | medium (not executed) | YamlParser.WalkIntoDefault | YamlParser.NestedOrDefaultAgrees |
