/** The search filter and the label rules of the JSON tree viewer: a query
    prunes a JSON document to the branches that mention it, list items are
    labelled by a chosen key or by position, and primitives are rendered
    as styled text. `json.dumps` and `repr` are abstract functions. */
module JsonTreeViewer {
  import opened Wrappers
  import opened Seqs
  import opened PyStr
  import opened Json

  // ---------------------------------------------------------------- matching

  /** `_match_any(value, query)`: a container matches when the query occurs
      in its lowered serialisation, a primitive when it occurs in its
      lowered `str`. */
  predicate MatchAny(v: Json, q: string, dumps: Json -> string) {
    Contains(Lower(MatchText(v, dumps)), q)
  }

  /** The text `_match_any` searches: the serialisation of a container,
      the `str` of a primitive. */
  function MatchText(v: Json, dumps: Json -> string): string {
    if IsContainer(v) then dumps(v) else Str(v, dumps)
  }

  /** `_match_any` is a substring test on the lowered text: the empty
      query matches every value, and a query holding an upper-case letter
      matches none, which is why the search box lowers the query first. */
  lemma MatchAnyLowered(v: Json, q: string, dumps: Json -> string)
    ensures MatchAny(v, q, dumps) <==>
      exists i :: OccursAt(Lower(MatchText(v, dumps)), q, i)
    ensures MatchAny(v, "", dumps)
    ensures (exists k :: 0 <= k < |q| && 'A' <= q[k] <= 'Z') ==> !MatchAny(v, q, dumps)
  {
    var raw := MatchText(v, dumps);
    var t := Lower(raw);
    ContainsAt(t, q);
    ContainsAt(t, "");
    assert OccursAt(t, "", 0);
    LowerIdempotent(raw);
    if i :| OccursAt(t, q, i) {
      forall k | 0 <= k < |q| ensures !('A' <= q[k] <= 'Z') {
        assert q[k] == t[i + k];
      }
    }
  }

  /** A dict entry survives when its lowered key contains the query or its
      value matches. */
  predicate MemberMatches(m: Member, q: string, dumps: Json -> string) {
    Contains(Lower(m.key), q) || MatchAny(m.value, q, dumps)
  }

  // ---------------------------------------------------------------- filtering

  /** The document `_filter_json(data, query)` returns: dicts and lists
      pruned to their matching entries, each kept container filtered in
      turn, a primitive returned as it is. */
  function Filtered(v: Json, q: string, dumps: Json -> string): (r: Json)
    ensures r.JObject? <==> v.JObject?
    ensures r.JArray? <==> v.JArray?
    ensures !IsContainer(v) ==> r == v
    decreases v, 1
  {
    match v
    case JObject(ms) => JObject(FilterMembers(ms, q, dumps))
    case JArray(xs) => JArray(FilterItems(xs, q, dumps))
    case _ => v
  }

  /** What a kept entry becomes: a container is filtered, a primitive is
      copied. */
  function Pruned(v: Json, q: string, dumps: Json -> string): Json
    decreases v, 2
  {
    if IsContainer(v) then Filtered(v, q, dumps) else v
  }

  function FilterMembers(ms: seq<Member>, q: string, dumps: Json -> string): seq<Member>
    decreases ms, 0
  {
    if ms == [] then []
    else
      var n := |ms| - 1;
      FilterMembers(ms[..n], q, dumps)
        + (if MemberMatches(ms[n], q, dumps) then [Member(ms[n].key, Pruned(ms[n].value, q, dumps))] else [])
  }

  function FilterItems(xs: seq<Json>, q: string, dumps: Json -> string): seq<Json>
    decreases xs, 0
  {
    if xs == [] then []
    else
      var n := |xs| - 1;
      FilterItems(xs[..n], q, dumps)
        + (if MatchAny(xs[n], q, dumps) then [Pruned(xs[n], q, dumps)] else [])
  }

  /** `_filter_json`: one loop over a dict's entries or a list's items,
      recursing into each kept container. */
  method FilterJson(data: Json, q: string, dumps: Json -> string) returns (r: Json)
    ensures r == Filtered(data, q, dumps)
    decreases data
  {
    if data.JObject? {
      var ms := data.members;
      var result: seq<Member> := [];
      var i := 0;
      while i < |ms|
        invariant 0 <= i <= |ms|
        invariant result == FilterMembers(ms[..i], q, dumps)
      {
        FilterMembersLast(ms, i, q, dumps);
        var key, value := ms[i].key, ms[i].value;
        var keyMatch := Contains(Lower(key), q);
        var valueMatch := MatchAny(value, q, dumps);
        if keyMatch || valueMatch {
          if IsContainer(value) {
            var sub := FilterJson(value, q, dumps);
            result := result + [Member(key, sub)];
          } else {
            result := result + [Member(key, value)];
          }
        }
        i := i + 1;
      }
      assert ms[..|ms|] == ms;
      r := JObject(result);
    } else if data.JArray? {
      var xs := data.items;
      var resultList: seq<Json> := [];
      var i := 0;
      while i < |xs|
        invariant 0 <= i <= |xs|
        invariant resultList == FilterItems(xs[..i], q, dumps)
      {
        FilterItemsLast(xs, i, q, dumps);
        var item := xs[i];
        if MatchAny(item, q, dumps) {
          if IsContainer(item) {
            var sub := FilterJson(item, q, dumps);
            resultList := resultList + [sub];
          } else {
            resultList := resultList + [item];
          }
        }
        i := i + 1;
      }
      assert xs[..|xs|] == xs;
      r := JArray(resultList);
    } else {
      r := data;
    }
  }

  /** One more entry extends the filtered entries before it. */
  lemma FilterMembersLast(ms: seq<Member>, i: nat, q: string, dumps: Json -> string)
    requires i < |ms|
    ensures FilterMembers(ms[..i + 1], q, dumps) == FilterMembers(ms[..i], q, dumps)
      + (if MemberMatches(ms[i], q, dumps) then [Member(ms[i].key, Pruned(ms[i].value, q, dumps))] else [])
  {
    assert ms[..i + 1][..i] == ms[..i];
  }

  /** One more item extends the filtered items before it. */
  lemma FilterItemsLast(xs: seq<Json>, i: nat, q: string, dumps: Json -> string)
    requires i < |xs|
    ensures FilterItems(xs[..i + 1], q, dumps) == FilterItems(xs[..i], q, dumps)
      + (if MatchAny(xs[i], q, dumps) then [Pruned(xs[i], q, dumps)] else [])
  {
    assert xs[..i + 1][..i] == xs[..i];
  }

  // ---------------------------------------------------------------- what the filter keeps

  function MemberKept(q: string, dumps: Json -> string): Member -> bool {
    (m: Member) => MemberMatches(m, q, dumps)
  }

  function MemberPruned(q: string, dumps: Json -> string): Member -> Member {
    (m: Member) => Member(m.key, Pruned(m.value, q, dumps))
  }

  function ItemKept(q: string, dumps: Json -> string): Json -> bool {
    (x: Json) => MatchAny(x, q, dumps)
  }

  function ItemPruned(q: string, dumps: Json -> string): Json -> Json {
    (x: Json) => Pruned(x, q, dumps)
  }

  lemma {:induction false} FilterMembersSift(ms: seq<Member>, q: string, dumps: Json -> string)
    ensures FilterMembers(ms, q, dumps) == Sift(ms, MemberKept(q, dumps), MemberPruned(q, dumps))
  {
    if ms != [] {
      FilterMembersSift(ms[..|ms| - 1], q, dumps);
    }
  }

  lemma {:induction false} FilterItemsSift(xs: seq<Json>, q: string, dumps: Json -> string)
    ensures FilterItems(xs, q, dumps) == Sift(xs, ItemKept(q, dumps), ItemPruned(q, dumps))
  {
    if xs != [] {
      FilterItemsSift(xs[..|xs| - 1], q, dumps);
    }
  }

  /** Filtering a dict keeps, in their original order, exactly the entries
      whose key or value matches: the j-th kept entry is input entry
      `idx[j]`, with its key unchanged and its value copied when primitive
      and filtered when a container. */
  lemma ObjectFilterSelects(ms: seq<Member>, q: string, dumps: Json -> string)
    ensures var r, idx := Filtered(JObject(ms), q, dumps).members, KeptIndices(ms, MemberKept(q, dumps));
      && |r| == |idx| <= |ms|
      && Ascending(idx)
      && (forall j :: 0 <= j < |idx| ==>
            && MemberMatches(ms[idx[j]], q, dumps)
            && r[j].key == ms[idx[j]].key
            && (!IsContainer(ms[idx[j]].value) ==> r[j].value == ms[idx[j]].value)
            && (IsContainer(ms[idx[j]].value) ==> r[j].value == Filtered(ms[idx[j]].value, q, dumps)))
      && (forall i :: 0 <= i < |ms| && MemberMatches(ms[i], q, dumps) ==> i in idx)
  {
    FilterMembersSift(ms, q, dumps);
    SiftSelects(ms, MemberKept(q, dumps), MemberPruned(q, dumps));
  }

  /** Filtering a list keeps, in order, exactly the items that match, each
      copied when primitive and filtered when a container. */
  lemma ArrayFilterSelects(xs: seq<Json>, q: string, dumps: Json -> string)
    ensures var r, idx := Filtered(JArray(xs), q, dumps).items, KeptIndices(xs, ItemKept(q, dumps));
      && |r| == |idx| <= |xs|
      && Ascending(idx)
      && (forall j :: 0 <= j < |idx| ==>
            && MatchAny(xs[idx[j]], q, dumps)
            && (!IsContainer(xs[idx[j]]) ==> r[j] == xs[idx[j]])
            && (IsContainer(xs[idx[j]]) ==> r[j] == Filtered(xs[idx[j]], q, dumps)))
      && (forall i :: 0 <= i < |xs| && MatchAny(xs[i], q, dumps) ==> i in idx)
  {
    FilterItemsSift(xs, q, dumps);
    SiftSelects(xs, ItemKept(q, dumps), ItemPruned(q, dumps));
  }

  /** The keys of a filtered dict are a subsequence of the input's keys, so
      a dict with distinct keys stays one; appending each kept entry is
      then what `result[key] = ...` does. */
  lemma FilterKeepsDistinctKeys(ms: seq<Member>, q: string, dumps: Json -> string)
    requires DistinctKeys(ms)
    ensures DistinctKeys(Filtered(JObject(ms), q, dumps).members)
  {
    ObjectFilterSelects(ms, q, dumps);
  }

  /** The empty query occurs in every text, so it keeps the whole
      document. */
  lemma {:induction false} FilterEmptyQuery(v: Json, dumps: Json -> string)
    ensures Filtered(v, "", dumps) == v
    decreases v, 1
  {
    match v
    case JObject(ms) => FilterMembersEmptyQuery(ms, dumps);
    case JArray(xs) => FilterItemsEmptyQuery(xs, dumps);
    case _ =>
  }

  lemma {:induction false} PrunedEmptyQuery(v: Json, dumps: Json -> string)
    ensures Pruned(v, "", dumps) == v
    decreases v, 2
  {
    if IsContainer(v) {
      FilterEmptyQuery(v, dumps);
    }
  }

  lemma {:induction false} FilterMembersEmptyQuery(ms: seq<Member>, dumps: Json -> string)
    ensures FilterMembers(ms, "", dumps) == ms
    decreases ms, 0
  {
    if ms != [] {
      var n := |ms| - 1;
      FilterMembersEmptyQuery(ms[..n], dumps);
      assert Contains(Lower(ms[n].key), "");
      PrunedEmptyQuery(ms[n].value, dumps);
      assert ms[..n] + [ms[n]] == ms;
    }
  }

  lemma {:induction false} FilterItemsEmptyQuery(xs: seq<Json>, dumps: Json -> string)
    ensures FilterItems(xs, "", dumps) == xs
    decreases xs, 0
  {
    if xs != [] {
      var n := |xs| - 1;
      FilterItemsEmptyQuery(xs[..n], dumps);
      assert Contains(Lower(MatchText(xs[n], dumps)), "");
      PrunedEmptyQuery(xs[n], dumps);
      assert xs[..n] + [xs[n]] == xs;
    }
  }

  // ---------------------------------------------------------------- the search box

  /** `event.value.lower().strip()`. */
  function Normalize(raw: string): string {
    Strip(Lower(raw))
  }

  /** The document the tree is rebuilt from after the search text changes
      to `raw`: the original when the normalised query is empty, otherwise
      the original filtered by it. */
  function Displayed(original: Json, raw: string, dumps: Json -> string): Json {
    var q := Normalize(raw);
    if q == "" then original else Filtered(original, q, dumps)
  }

  /** A normalised query is already lowered and stripped. */
  lemma NormalizeIdempotent(raw: string)
    ensures Normalize(Normalize(raw)) == Normalize(raw)
  {
    LowerIdempotent(raw);
    StripLowered(Lower(raw));
  }

  /** The empty-query branch is the filter with the empty query, so the
      displayed document is always the original filtered by the normalised
      query, and typing an already normalised query shows the same. */
  lemma DisplayedIsFiltered(original: Json, raw: string, dumps: Json -> string)
    ensures Displayed(original, raw, dumps) == Filtered(original, Normalize(raw), dumps)
    ensures Displayed(original, Normalize(raw), dumps) == Displayed(original, raw, dumps)
  {
    FilterEmptyQuery(original, dumps);
    NormalizeIdempotent(raw);
  }

  // ---------------------------------------------------------------- labels and rendering

  datatype Style = Green | Magenta | Yellow | Dim | White | BoldMagenta

  /** A `rich` text: its characters and its style. */
  datatype Text = Text(text: string, style: Style)

  /** The list item carries the chosen label key: it is a dict, the key is
      set and non-empty, and the dict has it. */
  predicate HasLabel(item: Json, labelKey: Option<string>) {
    item.JObject? && labelKey.Some? && labelKey.value != "" && labelKey.value in Keys(item.members)
  }

  function IndexLabel(index: nat): string {
    "[" + Decimal(index) + "]"
  }

  /** The label `_build_tree` gives the list item at `index`. */
  function ListLabel(item: Json, index: nat, labelKey: Option<string>, render: Json -> string): (t: Text)
    ensures t.style == BoldMagenta
    ensures HasLabel(item, labelKey) ==>
      exists i :: 0 <= i < |item.members| && item.members[i].key == labelKey.value
                  && t.text == Str(item.members[i].value, render)
    ensures !HasLabel(item, labelKey) ==> t.text == IndexLabel(index)
  {
    if HasLabel(item, labelKey) then
      Text(Str(Lookup(item.members, labelKey.value).value, render), BoldMagenta)
    else Text(IndexLabel(index), BoldMagenta)
  }

  /** Positional labels tell items apart: two items without the label key
      at different positions get different labels. */
  lemma IndexLabelsDistinct(a: Json, i: nat, b: Json, j: nat, labelKey: Option<string>, render: Json -> string)
    requires !HasLabel(a, labelKey) && !HasLabel(b, labelKey) && i != j
    ensures ListLabel(a, i, labelKey, render) != ListLabel(b, j, labelKey, render)
  {
    var da, db := Decimal(i), Decimal(j);
    if IndexLabel(i) == IndexLabel(j) {
      assert da == IndexLabel(i)[1..|IndexLabel(i)| - 1];
      assert db == IndexLabel(j)[1..|IndexLabel(j)| - 1];
      DecimalInjective(i, j);
    }
  }

  /** `_format_primitive` as written. `isinstance(True, int)` holds in
      Python, so a bool takes the number branch and prints as `True` or
      `False` in magenta; the bool branch after it is never reached. */
  function FormatPrimitive(v: Json, repr: Json -> string): Text {
    match v
    case JString(s) => Text("\"" + s + "\"", Green)
    case JNumber(n) => Text(Decimal(n), Magenta)
    case JBool(b) => Text(if b then "True" else "False", Magenta)
    case JNull => Text("null", Dim)
    case _ => Text(repr(v), White)
  }

  /** Under the code as written no value renders as the lowered bool in
      yellow: `True` comes out as `True` in magenta. */
  lemma FormatPrimitiveBoolAsNumber(repr: Json -> string)
    ensures FormatPrimitive(JBool(true), repr) == Text("True", Magenta)
    ensures forall v :: FormatPrimitive(v, repr).style != Yellow
  {
  }

  /** `_format_primitive` with the bool test placed before the number test,
      as its bool branch intends. */
  function FormatPrimitiveIntended(v: Json, repr: Json -> string): Text {
    match v
    case JString(s) => Text("\"" + s + "\"", Green)
    case JBool(b) => Text(if b then "true" else "false", Yellow)
    case JNumber(n) => Text(Decimal(n), Magenta)
    case JNull => Text("null", Dim)
    case _ => Text(repr(v), White)
  }

  /** The intended rendering shows a bool as JSON writes it, `true` or
      `false`, in yellow, and agrees with the code as written on every
      other value. */
  lemma FormatPrimitiveIntendedBools(v: Json, repr: Json -> string)
    ensures v.JBool? ==> FormatPrimitiveIntended(v, repr) == Text(Lower(Str(v, repr)), Yellow)
    ensures v.JBool? ==> FormatPrimitiveIntended(v, repr).text == (if v.b then "true" else "false")
    ensures !v.JBool? ==> FormatPrimitiveIntended(v, repr) == FormatPrimitive(v, repr)
  {
  }
}
