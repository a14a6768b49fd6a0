/** The GitHub REST client wrapper: the status gate applied to every
    response, dot-path field lookup, the read-only projections of a wrapped
    response, and `get`, which follows `Link: <...>; rel="next"` headers
    and concatenates list pages. HTTP traffic is an input: the responses
    the server gives, in order. */
module GitHubClient {
  import opened Wrappers
  import opened Seqs
  import opened PyStr
  import opened Json

  const BaseUrl: string := "https://api.github.com"

  /** One HTTP response: status code, body text, the body decoded as JSON
      when it is valid JSON (None where `response.json()` raises
      ValueError), and the `Link` header ("" when absent). */
  datatype Response = Response(status: int, text: string, json: Option<Json>, link: string)

  /** One request sent by `get`: the URL and the query parameters. */
  datatype Request = Request(url: string, params: Option<seq<(string, string)>>)

  datatype ClientError =
    | ApiError(status: int, body: string)  // the exception raised for a non-2xx status
    | IndexError                           // `take(n)` with n out of range
    | Exhausted                            // the server's responses ran out (model artefact)

  /** The wrapper: it owns one decoded value and never changes it. */
  datatype GitHubResponse = GitHubResponse(data: Json)

  // ---------------------------------------------------------------- status gate

  /** `_handle_response`: the decoded body for a 2xx status (the raw text
      when the body is not JSON), an API error otherwise. */
  function HandleResponse(r: Response): (d: Result<Json, ClientError>)
    ensures d.Ok? <==> 200 <= r.status < 300
    ensures d.Ok? ==> d.value == r.json.GetOr(JString(r.text))
    ensures d.Err? ==> d.error == ApiError(r.status, r.text)
  {
    if 200 <= r.status < 300 then Ok(r.json.GetOr(JString(r.text)))
    else Err(ApiError(r.status, r.text))
  }

  /** The text of the raised exception: `GitHub API Error {status}: {text}`. */
  function ErrorMessage(status: int, body: string): string {
    "GitHub API Error " + Decimal(status) + ": " + body
  }

  /** The error message identifies the failing status code and the body:
      two different failures never print the same message. */
  lemma ErrorMessageInjective(s1: int, b1: string, s2: int, b2: string)
    requires ErrorMessage(s1, b1) == ErrorMessage(s2, b2)
    ensures s1 == s2 && b1 == b2
  {
    var p := "GitHub API Error ";
    var d1, d2 := Decimal(s1), Decimal(s2);
    var t1, t2 := d1 + [':'] + (" " + b1), d2 + [':'] + (" " + b2);
    assert ErrorMessage(s1, b1) == p + t1 && ErrorMessage(s2, b2) == p + t2;
    assert t1 == (p + t1)[|p|..] == (p + t2)[|p|..] == t2;
    assert ':' !in d1 && ':' !in d2;
    ColonSplit(d1, b1, d2, b2);
    DecimalInjective(s1, s2);
  }

  /** `d: b` with no ':' in `d` determines both `d` and `b`: the first ':'
      ends `d`. */
  lemma ColonSplit(d1: string, b1: string, d2: string, b2: string)
    requires ':' !in d1 && ':' !in d2
    requires d1 + [':'] + (" " + b1) == d2 + [':'] + (" " + b2)
    ensures d1 == d2 && b1 == b2
  {
    var t1, t2 := d1 + [':'] + (" " + b1), d2 + [':'] + (" " + b2);
    FindFirst(d1, ':', " " + b1);
    FindFirst(d2, ':', " " + b2);
    assert d1 == t1[..|d1|] == t2[..|d2|] == d2;
    assert b1 == t1[|d1| + 2..] == t2[|d2| + 2..] == b2;
  }

  // ---------------------------------------------------------------- dot paths

  /** `_get_nested(item, path)`: split the path on '.', then look each
      segment up while the current value is a dict. The result is the value
      at the path when every segment is present through dicts, and None
      otherwise: a missing key or a non-dict on the way never raises. */
  method GetNested(item: Json, path: string) returns (v: Json)
    ensures v == At(item, Split(path, '.')).GetOr(JNull)
  {
    var keys := Split(path, '.');
    v := item;
    var i := 0;
    while i < |keys|
      invariant 0 <= i <= |keys|
      invariant Walk(item, keys, JNull) == Walk(v, keys[i..], JNull)
    {
      if v.JObject? {
        v := DictGet(v, keys[i], JNull);
      } else {
        WalkPlainDefault(item, keys, JNull);
        return JNull;
      }
      i := i + 1;
    }
    WalkPlainDefault(item, keys, JNull);
  }

  /** What `_get_nested(item, field)` returns. */
  function Nested(item: Json, field: string): Json {
    At(item, Split(field, '.')).GetOr(JNull)
  }

  /** `{field: _get_nested(item, field) for field in fields}`: one member per
      distinct requested field, in order of first request; a repeated field
      overwrites its own entry with the same value. */
  function Extracted(item: Json, fields: seq<string>): (ms: seq<Member>)
    ensures DistinctKeys(ms)
    ensures forall f :: f in fields <==> f in Keys(ms)
    ensures forall i :: 0 <= i < |ms| ==> ms[i].value == Nested(item, ms[i].key)
    ensures forall i, j, k :: 0 <= i < j < |ms| && 0 <= k < |fields| && fields[k] == ms[j].key ==>
      ms[i].key in fields[..k]
  {
    if fields == [] then []
    else
      var n := |fields| - 1;
      var prev := Extracted(item, fields[..n]);
      assert fields == fields[..n] + [fields[n]];
      if fields[n] in Keys(prev) then prev
      else
        var ms := prev + [Member(fields[n], Nested(item, fields[n]))];
        assert forall i :: 0 <= i < |prev| ==> prev[i].key == Keys(prev)[i];
        assert Keys(ms) == Keys(prev) + [fields[n]];
        ms
  }

  /** The dict comprehension of `getFields`, one `_get_nested` per field. */
  method ExtractFields(item: Json, fields: seq<string>) returns (obj: Json)
    ensures obj == JObject(Extracted(item, fields))
  {
    var ms: seq<Member> := [];
    var i := 0;
    while i < |fields|
      invariant 0 <= i <= |fields|
      invariant ms == Extracted(item, fields[..i])
    {
      var v := GetNested(item, fields[i]);
      assert fields[..i + 1][..i] == fields[..i];
      if fields[i] !in Keys(ms) {
        ms := ms + [Member(fields[i], v)];
      }
      i := i + 1;
    }
    assert fields[..|fields|] == fields;
    obj := JObject(ms);
  }

  // ---------------------------------------------------------------- projections

  predicate IsObject(v: Json) {
    v.JObject?
  }

  /** The per-item projection of `getFields(fields)`. */
  function FieldsProjection(fields: seq<string>): Json -> Json {
    (item: Json) => JObject(Extracted(item, fields))
  }

  /** `getFields(fields)`: on a list, one extracted dict per dict item, in
      order, other items skipped; on a dict, one extracted dict; on anything
      else, None. The wrapped value itself is left as it was. */
  method GetFields(resp: GitHubResponse, fields: seq<string>) returns (r: GitHubResponse)
    ensures resp.data.JArray? ==>
      r.data == JArray(Sift(resp.data.items, IsObject, FieldsProjection(fields)))
    ensures resp.data.JObject? ==> r.data == JObject(Extracted(resp.data, fields))
    ensures !IsContainer(resp.data) ==> r.data == JNull
  {
    match resp.data
    case JArray(items) =>
      var result: seq<Json> := [];
      var i := 0;
      while i < |items|
        invariant 0 <= i <= |items|
        invariant result == Sift(items[..i], IsObject, FieldsProjection(fields))
      {
        assert items[..i + 1][..i] == items[..i];
        if items[i].JObject? {
          var extracted := ExtractFields(items[i], fields);
          result := result + [extracted];
        }
        i := i + 1;
      }
      assert items[..|items|] == items;
      r := GitHubResponse(JArray(result));
    case JObject(_) =>
      var extracted := ExtractFields(resp.data, fields);
      r := GitHubResponse(extracted);
    case _ =>
      r := GitHubResponse(JNull);
  }

  /** `getFields` on a list keeps the dict items only, in their order, and
      maps each to a dict whose keys are exactly the requested fields and
      whose values are the `_get_nested` lookups. */
  lemma GetFieldsOnList(items: seq<Json>, fields: seq<string>)
    ensures var r, idx := Sift(items, IsObject, FieldsProjection(fields)), KeptIndices(items, IsObject);
      && |r| == |idx| && Ascending(idx)
      && (forall i :: 0 <= i < |items| && items[i].JObject? ==> i in idx)
      && forall j :: 0 <= j < |r| ==>
           items[idx[j]].JObject? && r[j].JObject?
           && (forall f :: f in fields <==> f in Keys(r[j].members))
           && (forall m :: m in r[j].members ==> m.value == Nested(items[idx[j]], m.key))
  {
    var r, idx := Sift(items, IsObject, FieldsProjection(fields)), KeptIndices(items, IsObject);
    SiftSelects(items, IsObject, FieldsProjection(fields));
    forall j | 0 <= j < |r|
      ensures forall m :: m in r[j].members ==> m.value == Nested(items[idx[j]], m.key)
    {
      assert r[j] == JObject(Extracted(items[idx[j]], fields));
      forall m | m in r[j].members ensures m.value == Nested(items[idx[j]], m.key) {
        var i :| 0 <= i < |r[j].members| && r[j].members[i] == m;
      }
    }
  }

  /** The per-item projection of `pluck(field)`: `item.get(field)`. */
  function Plucker(field: string): Json -> Json {
    (item: Json) => if item.JObject? then DictGet(item, field, JNull) else JNull
  }

  /** `pluck(field)`: on a list, `item.get(field)` for each dict item in
      order; None on anything else. */
  function Pluck(resp: GitHubResponse, field: string): (r: GitHubResponse)
    ensures resp.data.JArray? ==>
      && r.data.JArray?
      && |r.data.items| == |KeptIndices(resp.data.items, IsObject)|
      && forall j :: 0 <= j < |r.data.items| ==>
           var item := resp.data.items[KeptIndices(resp.data.items, IsObject)[j]];
           item.JObject? && r.data.items[j] == Lookup(item.members, field).GetOr(JNull)
    ensures !resp.data.JArray? ==> r.data == JNull
  {
    if resp.data.JArray? then
      SiftSelects(resp.data.items, IsObject, Plucker(field));
      GitHubResponse(JArray(Sift(resp.data.items, IsObject, Plucker(field))))
    else GitHubResponse(JNull)
  }

  /** For a field without dots, plucking it gives the same values as the
      one-field `getFields`, each wrapped in a one-member dict. */
  lemma PluckAgreesWithGetFields(items: seq<Json>, field: string)
    requires '.' !in field
    ensures var p, g := Sift(items, IsObject, Plucker(field)), Sift(items, IsObject, FieldsProjection([field]));
      |p| == |g| && forall j :: 0 <= j < |g| ==> g[j] == JObject([Member(field, p[j])])
  {
    SiftSelects(items, IsObject, Plucker(field));
    SiftSelects(items, IsObject, FieldsProjection([field]));
    SplitNoSeparator(field, '.');
    forall item: Json | item.JObject?
      ensures Extracted(item, [field]) == [Member(field, DictGet(item, field, JNull))]
    {
      assert [field][..0] == [] && [field][1..] == [];
      assert Split(field, '.') == [field];
      match Lookup(item.members, field)
      case Some(child) =>
        assert At(item, [field]) == At(child, []) == Some(child);
      case None =>
        assert At(item, [field]) == None;
    }
  }

  /** `head()`: the first item of a non-empty list, else None. */
  function Head(resp: GitHubResponse): (r: GitHubResponse)
    ensures Take(resp, 0) == Ok(r)
  {
    if resp.data.JArray? && resp.data.items != [] then GitHubResponse(resp.data.items[0])
    else GitHubResponse(JNull)
  }

  /** `last()`: the last item of a non-empty list, else None. */
  function Last(resp: GitHubResponse): (r: GitHubResponse)
    ensures Take(resp, -1) == Ok(r)
  {
    if resp.data.JArray? && resp.data.items != [] then GitHubResponse(resp.data.items[|resp.data.items| - 1])
    else GitHubResponse(JNull)
  }

  /** `take(n)`: `self.data[n]` on a non-empty list, without a bounds
      check, so Python's negative indices count from the end and an index
      outside [-len, len) raises IndexError; None on an empty list or a
      non-list. */
  function Take(resp: GitHubResponse, n: int): (r: Result<GitHubResponse, ClientError>)
    ensures r.Err? <==>
      && resp.data.JArray? && resp.data.items != []
      && !(-|resp.data.items| <= n < |resp.data.items|)
    ensures r.Ok? && resp.data.JArray? && resp.data.items != [] ==>
      exists k :: 0 <= k < |resp.data.items| && (k == n || k == n + |resp.data.items|)
        && r.value.data == resp.data.items[k]
    ensures !(resp.data.JArray? && resp.data.items != []) ==> r == Ok(GitHubResponse(JNull))
  {
    if resp.data.JArray? && resp.data.items != [] then
      var xs := resp.data.items;
      if 0 <= n < |xs| then Ok(GitHubResponse(xs[n]))
      else if -|xs| <= n < 0 then Ok(GitHubResponse(xs[n + |xs|]))
      else Err(IndexError)
    else Ok(GitHubResponse(JNull))
  }

  /** `value()` */
  function Value(resp: GitHubResponse): Json {
    resp.data
  }

  /** `head()` is `take(0)` and `last()` is `take(-1)`, and `take(len - 1)`
      on a non-empty list; on an empty list or a non-list all three give
      None and none raises. */
  lemma PositionalAgree(resp: GitHubResponse)
    ensures Take(resp, 0) == Ok(Head(resp))
    ensures Take(resp, -1) == Ok(Last(resp))
    ensures resp.data.JArray? && resp.data.items != [] ==>
      Take(resp, |resp.data.items| - 1) == Ok(Last(resp))
    ensures !(resp.data.JArray? && resp.data.items != []) ==>
      Head(resp).data == JNull && Last(resp).data == JNull && forall n :: Take(resp, n) == Ok(GitHubResponse(JNull))
  {
  }

  // ---------------------------------------------------------------- Link header

  /** The text `get` looks for in each comma-separated part of the header. */
  const NextMarker: string := "rel=\"next\""

  predicate IsNextPart(part: string) {
    Contains(part, NextMarker)
  }

  /** `part[part.find("<") + 1:part.find(">")]` */
  function LinkTarget(part: string): string {
    Slice(part, Find(part, '<') + 1, Find(part, '>'))
  }

  /** Part `i` is marked `rel="next"` and no later part is. */
  ghost predicate LastMarked(parts: seq<string>, i: int) {
    0 <= i < |parts| && IsNextPart(parts[i]) && forall j :: i < j < |parts| ==> !IsNextPart(parts[j])
  }

  /** The URL `get` requests next, given the comma-separated parts of the
      `Link` header: the target of the last part marked `rel="next"`,
      None when no part is. */
  function NextUrl(parts: seq<string>): (r: Option<string>)
    ensures r.None? <==> forall i :: 0 <= i < |parts| ==> !IsNextPart(parts[i])
  {
    if parts == [] then None
    else
      var n := |parts| - 1;
      if IsNextPart(parts[n]) then Some(LinkTarget(parts[n]))
      else
        assert forall i :: 0 <= i < n ==> parts[..n][i] == parts[i];
        NextUrl(parts[..n])
  }

  /** When some part is marked, `NextUrl` is the target of the last marked
      part. */
  lemma {:induction false} NextUrlIsLastMarked(parts: seq<string>)
    requires NextUrl(parts).Some?
    ensures exists i :: LastMarked(parts, i) && NextUrl(parts).value == LinkTarget(parts[i])
  {
    var n := |parts| - 1;
    if IsNextPart(parts[n]) {
      assert LastMarked(parts, n);
    } else {
      NextUrlIsLastMarked(parts[..n]);
      var i :| LastMarked(parts[..n], i) && NextUrl(parts[..n]).value == LinkTarget(parts[..n][i]);
      LastMarkedExtend(parts, i);
    }
  }

  /** An unmarked part after the last marked one leaves it the last. */
  lemma LastMarkedExtend(parts: seq<string>, i: int)
    requires parts != [] && !IsNextPart(parts[|parts| - 1])
    requires LastMarked(parts[..|parts| - 1], i)
    ensures LastMarked(parts, i) && parts[..|parts| - 1][i] == parts[i]
  {
    var n := |parts| - 1;
    assert forall j :: 0 <= j < n ==> parts[..n][j] == parts[j];
  }

  /** The scan of the `Link` header inside `get`: split on ',', keep the
      target of every part that contains `rel="next"`, the last one winning. */
  method NextLink(link: string) returns (next: Option<string>)
    ensures next == NextUrl(Split(link, ','))
  {
    var parts := Split(link, ',');
    next := None;
    var i := 0;
    while i < |parts|
      invariant 0 <= i <= |parts|
      invariant next == NextUrl(parts[..i])
    {
      assert parts[..i + 1][..i] == parts[..i];
      if IsNextPart(parts[i]) {
        next := Some(LinkTarget(parts[i]));
      }
      i := i + 1;
    }
    assert parts[..|parts|] == parts;
  }

  /** A link-value in the shape GitHub sends (section 3 of RFC 8288
      allows more): a single quoted `rel` parameter, written
      `lead<url>; rel="rel"`, where `lead` is the optional white space
      after the separating comma. */
  datatype LinkValue = LinkValue(lead: string, url: string, rel: string)

  function RenderLink(l: LinkValue): string {
    l.lead + "<" + l.url + ">; rel=\"" + l.rel + "\""
  }

  /** A `Link` header listing `links`, separated by commas. */
  function RenderHeader(links: seq<LinkValue>): string {
    Join(seq(|links|, i requires 0 <= i < |links| => RenderLink(links[i])), ',')
  }

  /** Text free of the characters that delimit link-values. */
  predicate Plain(s: string) {
    ',' !in s && '<' !in s && '>' !in s && '"' !in s
  }

  predicate PlainLink(l: LinkValue) {
    Plain(l.lead) && Plain(l.url) && Plain(l.rel)
  }

  /** The parameters after the URL: `; rel="rel"`. */
  function RelTail(rel: string): string {
    "; rel=\"" + rel + "\""
  }

  /** Everything of a rendered link-value before the opening quote. */
  function Front(l: LinkValue): string {
    l.lead + "<" + l.url + ">; rel="
  }

  lemma AngleSplit(l: LinkValue)
    ensures RenderLink(l) == l.lead + ['<'] + (l.url + ['>'] + RelTail(l.rel))
    ensures RenderLink(l) == (l.lead + ['<'] + l.url) + ['>'] + RelTail(l.rel)
  {
  }

  lemma QuoteSplit(l: LinkValue)
    ensures RenderLink(l) == Front(l) + ['"'] + l.rel + ['"']
  {
  }

  /** The target extracted from a rendered link-value is its URL. */
  lemma TargetOfRendered(l: LinkValue)
    requires PlainLink(l)
    ensures LinkTarget(RenderLink(l)) == l.url
  {
    var p := RenderLink(l);
    var w := l.lead + ['<'] + l.url;
    AngleSplit(l);
    assert Find(p, '<') == |l.lead| by {
      FindFirst(l.lead, '<', l.url + ['>'] + RelTail(l.rel));
    }
    assert Find(p, '>') == |w| by {
      assert '>' !in w;
      FindFirst(w, '>', RelTail(l.rel));
    }
    assert p[|l.lead| + 1..|w|] == l.url;
  }

  /** In `w"rel"` with no quote in `w` or `rel`, the quotes are exactly the
      two that delimit `rel`. */
  lemma OnlyQuotes(w: string, rel: string, k: int)
    requires '"' !in w && '"' !in rel
    requires 0 <= k < |w + ['"'] + rel + ['"']|
    ensures (w + ['"'] + rel + ['"'])[k] == '"' <==> k == |w| || k == |w| + 1 + |rel|
  {
    var p := w + ['"'] + rel + ['"'];
    if k < |w| { assert p[k] == w[k]; }
    else if |w| < k < |w| + 1 + |rel| { assert p[k] == rel[k - |w| - 1]; }
  }

  /** The marker can only occur where its quotes meet the quotes around
      `rel`, so `rel` is `next`. */
  lemma MarkerMeansNext(w: string, rel: string, i: int)
    requires '"' !in w && '"' !in rel
    requires OccursAt(w + ['"'] + rel + ['"'], NextMarker, i)
    ensures rel == "next"
  {
    var p := w + ['"'] + rel + ['"'];
    assert p[i + 4] == NextMarker[4] && p[i + 9] == NextMarker[9];
    OnlyQuotes(w, rel, i + 4);
    OnlyQuotes(w, rel, i + 9);
    assert i + 4 == |w| && i + 9 == |w| + 1 + |rel|;
    assert p[i + 5..i + 9] == rel;
    assert rel == NextMarker[5..9];
  }

  /** In `…rel="rel"` the marker occurs somewhere exactly when `rel` is
      `next`. */
  lemma MarkerIffNext(p: string, w: string, rel: string)
    requires p == w + ['"'] + rel + ['"']
    requires '"' !in w && '"' !in rel && |w| >= 4 && w[|w| - 4..] == "rel="
    ensures (exists i :: OccursAt(p, NextMarker, i)) <==> rel == "next"
  {
    if rel == "next" {
      assert p[|w| - 4..|w| + 6] == NextMarker;
      assert OccursAt(p, NextMarker, |w| - 4);
    } else {
      forall i ensures !OccursAt(p, NextMarker, i) {
        if OccursAt(p, NextMarker, i) {
          MarkerMeansNext(w, rel, i);
        }
      }
    }
  }

  /** A rendered link-value contains the marker `rel="next"` exactly when
      its relation type is `next`. */
  lemma MarkedIffNext(l: LinkValue)
    requires PlainLink(l)
    ensures IsNextPart(RenderLink(l)) <==> l.rel == "next"
  {
    var p := RenderLink(l);
    var w := Front(l);
    QuoteSplit(l);
    assert '"' !in w && w[|w| - 4..] == "rel=";
    ContainsAt(p, NextMarker);
    MarkerIffNext(p, w, l.rel);
  }

  /** The URL of the last link whose relation type is `next`. */
  function LastNextOf(links: seq<LinkValue>): Option<string> {
    if links == [] then None
    else if links[|links| - 1].rel == "next" then Some(links[|links| - 1].url)
    else LastNextOf(links[..|links| - 1])
  }

  /** Over a header of link-values `lead<url>; rel="rel"` none of whose
      parts holds a comma, an angle bracket or a double quote, the scan
      finds the URL of the last link with relation type `next`, and None
      when there is none. */
  lemma {:induction false} HeaderRoundTrip(links: seq<LinkValue>)
    requires forall i :: 0 <= i < |links| ==> PlainLink(links[i])
    ensures NextUrl(Split(RenderHeader(links), ',')) == LastNextOf(links)
  {
    var parts := seq(|links|, i requires 0 <= i < |links| => RenderLink(links[i]));
    if links == [] {
      assert RenderHeader(links) == "";
      assert Split("", ',') == [""];
      assert !Contains("", NextMarker);
    } else {
      forall i | 0 <= i < |parts| ensures ',' !in parts[i] {
        assert parts[i] == links[i].lead + "<" + links[i].url + ">; rel=\"" + links[i].rel + "\"";
      }
      JoinSplit(parts, ',');
      PartsScan(links, parts);
    }
  }

  lemma {:induction false} PartsScan(links: seq<LinkValue>, parts: seq<string>)
    requires forall i :: 0 <= i < |links| ==> PlainLink(links[i])
    requires parts == seq(|links|, i requires 0 <= i < |links| => RenderLink(links[i]))
    ensures NextUrl(parts) == LastNextOf(links)
  {
    if links != [] {
      var n := |links| - 1;
      MarkedIffNext(links[n]);
      if links[n].rel == "next" {
        TargetOfRendered(links[n]);
      } else {
        assert parts[..n] == seq(n, i requires 0 <= i < n => RenderLink(links[..n][i]));
        PartsScan(links[..n], parts[..n]);
      }
    }
  }

  // ---------------------------------------------------------------- pagination

  /** The URL `get` moves to after response `r`. */
  function FollowUrl(r: Response): Option<string> {
    NextUrl(Split(r.link, ','))
  }

  /** Response `r` is a list page after which `get` requests again (a
      missing or empty next URL ends `while url`). */
  predicate Continues(r: Response) {
    && HandleResponse(r).Ok? && HandleResponse(r).value.JArray?
    && FollowUrl(r).Some? && FollowUrl(r).value != ""
  }

  /** What `get` returns, given the responses still to come and the items
      gathered so far. */
  function Paginate(rs: seq<Response>, acc: seq<Json>): Result<Json, ClientError>
    decreases |rs|
  {
    if rs == [] then Err(Exhausted)
    else match HandleResponse(rs[0])
      case Err(e) => Err(e)
      case Ok(d) =>
        if !d.JArray? then Ok(d)
        else if Continues(rs[0]) then Paginate(rs[1..], acc + d.items)
        else Ok(JArray(acc + d.items))
  }

  /** Requests `sent` are the ones `get` makes: the first to the endpoint
      with the caller's parameters, each later one to the next URL of the
      response before it, without parameters. */
  ghost predicate RequestLog(endpoint: string, params: Option<seq<(string, string)>>,
                             server: seq<Response>, sent: seq<Request>)
  {
    && 1 <= |sent| <= |server| + 1
    && sent[0] == Request(BaseUrl + endpoint, params)
    && forall k :: 1 <= k < |sent| ==> Follows(server, sent, k)
  }

  /** Request `k` goes to the next URL of response `k - 1`. */
  ghost predicate Follows(server: seq<Response>, sent: seq<Request>, k: int)
    requires 1 <= k < |sent| && k <= |server|
  {
    FollowUrl(server[k - 1]).Some? && sent[k] == Request(FollowUrl(server[k - 1]).value, None)
  }

  /** `get(endpoint, params)` against a server that answers with `server`,
      in order. The first request goes to the endpoint with `params`; each
      later one to the URL taken from the previous `Link` header, without
      parameters. List pages are concatenated; the loop ends at a page
      without a usable next URL. The result is `Paginate(server, [])`. */
  method Get(endpoint: string, params: Option<seq<(string, string)>>, server: seq<Response>)
    returns (r: Result<GitHubResponse, ClientError>, sent: seq<Request>)
    ensures r == match Paginate(server, []) case Ok(d) => Ok(GitHubResponse(d)) case Err(e) => Err(e)
    ensures RequestLog(endpoint, params, server, sent)
    ensures forall k :: 0 <= k < |sent| - 1 ==> Continues(server[k])
    ensures |sent| <= |server| ==> !Continues(server[|sent| - 1])
    ensures |sent| > |server| ==> r == Err(Exhausted)
  {
    var url: Option<string> := Some(BaseUrl + endpoint);
    var ps := params;
    var results: seq<Json> := [];
    sent := [Request(url.value, ps)];
    var i := 0;
    while true
      invariant 0 <= i <= |server| && |sent| == i + 1
      invariant RequestLog(endpoint, params, server, sent)
      invariant url.Some? && sent[i] == Request(url.value, ps)
      invariant forall k :: 0 <= k < i ==> Continues(server[k])
      invariant Paginate(server, []) == Paginate(server[i..], results)
      decreases |server| - i
    {
      if i == |server| {
        r := Err(Exhausted);
        return;
      }
      PaginateAt(server, i, results);
      var data := HandleResponse(server[i]);
      if data.Err? {
        assert !Continues(server[i]);
        r := Err(data.error);
        return;
      }
      if !data.value.JArray? {
        assert !Continues(server[i]);
        r := Ok(GitHubResponse(data.value));
        return;
      }
      results := results + data.value.items;
      url := NextLink(server[i].link);
      assert url == FollowUrl(server[i]);
      ps := None;
      if !(url.Some? && url.value != "") {
        assert !Continues(server[i]);
        r := Ok(GitHubResponse(JArray(results)));
        return;
      }
      assert Continues(server[i]);
      LogExtend(endpoint, params, server, sent, url.value);
      sent := sent + [Request(url.value, ps)];
      i := i + 1;
    }
  }

  /** `Paginate` on the responses from `i` on, one step unfolded. */
  lemma PaginateAt(server: seq<Response>, i: nat, acc: seq<Json>)
    requires i < |server|
    ensures var h := HandleResponse(server[i]);
      Paginate(server[i..], acc) ==
        if h.Err? then Err(h.error)
        else if !h.value.JArray? then Ok(h.value)
        else if Continues(server[i]) then Paginate(server[i + 1..], acc + h.value.items)
        else Ok(JArray(acc + h.value.items))
  {
    assert server[i..][0] == server[i] && server[i..][1..] == server[i + 1..];
  }

  /** Following the next URL of the latest response extends the log. */
  lemma LogExtend(endpoint: string, params: Option<seq<(string, string)>>,
                  server: seq<Response>, sent: seq<Request>, u: string)
    requires RequestLog(endpoint, params, server, sent) && |sent| <= |server|
    requires FollowUrl(server[|sent| - 1]) == Some(u)
    ensures RequestLog(endpoint, params, server, sent + [Request(u, None)])
  {
    var more := sent + [Request(u, None)];
    forall k | 1 <= k < |more|
      ensures Follows(server, more, k)
    {
      if k < |sent| {
        assert Follows(server, sent, k);
        assert more[k] == sent[k];
      }
    }
  }

  /** Continuing list pages only add their items to what is gathered. */
  lemma {:induction false} PaginateSkip(rs: seq<Response>, pages: seq<seq<Json>>, acc: seq<Json>)
    requires |pages| <= |rs|
    requires forall k :: 0 <= k < |pages| ==> Continues(rs[k]) && HandleResponse(rs[k]) == Ok(JArray(pages[k]))
    ensures Paginate(rs, acc) == Paginate(rs[|pages|..], acc + Flatten(pages))
  {
    if pages != [] {
      var n := |pages| - 1;
      PaginateSkip(rs, pages[..n], acc);
      var rest := rs[n..];
      assert rest[0] == rs[n] && rest[1..] == rs[n + 1..];
      assert Flatten(pages) == Flatten(pages[..n]) + pages[n];
      assert acc + Flatten(pages[..n]) + pages[n] == acc + Flatten(pages);
    } else {
      assert acc + [] == acc;
    }
  }

  /** The whole outcome of `get`: after n continuing list pages, the first
      response that does not continue decides. A non-2xx status raises,
      discarding the pages gathered; a 2xx body that is not a list is
      returned alone, also discarding them; a list is appended and ends the
      result, which is then every page's items in fetch order. */
  lemma PaginateOutcome(rs: seq<Response>, pages: seq<seq<Json>>)
    requires |pages| < |rs|
    requires forall k :: 0 <= k < |pages| ==> Continues(rs[k]) && HandleResponse(rs[k]) == Ok(JArray(pages[k]))
    requires !Continues(rs[|pages|])
    ensures var last := rs[|pages|];
      && (!(200 <= last.status < 300) ==> Paginate(rs, []) == Err(ApiError(last.status, last.text)))
      && (200 <= last.status < 300 && !last.json.GetOr(JString(last.text)).JArray? ==>
            Paginate(rs, []) == Ok(last.json.GetOr(JString(last.text))))
      && (200 <= last.status < 300 && last.json.GetOr(JString(last.text)).JArray? ==>
            Paginate(rs, []) == Ok(JArray(Flatten(pages) + last.json.GetOr(JString(last.text)).items)))
  {
    PaginateSkip(rs, pages, []);
    assert [] + Flatten(pages) == Flatten(pages);
  }

  /** A single 2xx response holding an empty list and no next link gives
      an empty list. */
  lemma EmptyFirstPage(r: Response)
    requires 200 <= r.status < 300 && r.json == Some(JArray([])) && FollowUrl(r).None?
    ensures Paginate([r], []) == Ok(JArray([]))
  {
    assert HandleResponse(r) == Ok(JArray([]));
    assert !Continues(r);
    var none: seq<Json> := [];
    assert none + none == none;
  }

  // ---------------------------------------------------------------- delete

  datatype DeleteOutcome = Deleted | Wrapped(resp: GitHubResponse)

  /** `delete`: True for 200 and 204; any other status goes through
      `_handle_response`, so another 2xx is wrapped and the rest raise. */
  function Delete(r: Response): (d: Result<DeleteOutcome, ClientError>)
    ensures d == Ok(Deleted) <==> r.status == 200 || r.status == 204
    ensures d.Err? <==> !(200 <= r.status < 300)
    ensures d.Err? ==> d.error == ApiError(r.status, r.text)
    ensures d.Ok? && d.value.Wrapped? ==> d.value.resp.data == r.json.GetOr(JString(r.text))
  {
    if r.status == 204 || r.status == 200 then Ok(Deleted)
    else match HandleResponse(r)
      case Ok(v) => Ok(Wrapped(GitHubResponse(v)))
      case Err(e) => Err(e)
  }
}
