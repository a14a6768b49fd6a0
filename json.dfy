/** Decoded JSON (and loaded YAML) values as Python holds them after
    `json.loads` / `yaml.safe_load`: dicts keep insertion order, so an
    object is a sequence of members. Numbers are integers. */
module Json {
  import opened Wrappers
  import opened PyStr

  datatype Json =
    | JNull
    | JBool(b: bool)
    | JNumber(n: int)
    | JString(s: string)
    | JArray(items: seq<Json>)
    | JObject(members: seq<Member>)

  datatype Member = Member(key: string, value: Json)

  /** `isinstance(v, (dict, list))` */
  predicate IsContainer(v: Json) {
    v.JArray? || v.JObject?
  }

  function Keys(ms: seq<Member>): (ks: seq<string>)
    ensures |ks| == |ms|
  {
    seq(|ms|, i requires 0 <= i < |ms| => ms[i].key)
  }

  /** A Python dict never holds a key twice. */
  ghost predicate DistinctKeys(ms: seq<Member>) {
    forall i, j :: 0 <= i < j < |ms| ==> ms[i].key != ms[j].key
  }

  /** `d.get(k)` on a dict: the value stored under `k`, None when `k` is
      not a key. */
  function Lookup(ms: seq<Member>, k: string): (r: Option<Json>)
    ensures r.None? <==> k !in Keys(ms)
    ensures r.Some? ==> exists i :: 0 <= i < |ms| && ms[i] == Member(k, r.value)
  {
    if ms == [] then None
    else if ms[0].key == k then
      assert Keys(ms)[0] == k;
      Some(ms[0].value)
    else
      var r := Lookup(ms[1..], k);
      assert Keys(ms) == [ms[0].key] + Keys(ms[1..]);
      assert r.Some? ==> exists i :: 0 <= i < |ms| - 1 && ms[1..][i] == Member(k, r.value);
      r
  }

  /** `v.get(k, default)` for a dict `v`. */
  function DictGet(v: Json, k: string, default: Json): Json
    requires v.JObject?
  {
    Lookup(v.members, k).GetOr(default)
  }

  /** The loop of a dot-path lookup with a default: walk down one key at a
      time with `value.get(key, default)`, answering `default` as soon as
      the current value is not a dict. */
  function Walk(v: Json, keys: seq<string>, default: Json): Json
    decreases |keys|
  {
    if keys == [] then v
    else if !v.JObject? then default
    else Walk(DictGet(v, keys[0], default), keys[1..], default)
  }

  /** The value found by following `keys` through dicts that each hold the
      next key, or None when some step is missing or not a dict. */
  function At(v: Json, keys: seq<string>): Option<Json>
    decreases |keys|
  {
    if keys == [] then Some(v)
    else if !v.JObject? then None
    else match Lookup(v.members, keys[0])
      case Some(child) => At(child, keys[1..])
      case None => None
  }

  /** Following a path in two legs is following it in one. */
  lemma {:induction false} AtAppend(v: Json, a: seq<string>, b: seq<string>)
    ensures At(v, a + b) == match At(v, a) case Some(x) => At(x, b) case None => None
  {
    if a == [] {
      assert a + b == b;
    } else {
      assert (a + b)[0] == a[0] && (a + b)[1..] == a[1..] + b;
      if v.JObject? && Lookup(v.members, a[0]).Some? {
        AtAppend(Lookup(v.members, a[0]).value, a[1..], b);
      }
    }
  }

  /** Once a prefix `a` of the path has been found, the walk carries on
      from the value found there. */
  lemma {:induction false} WalkAlong(v: Json, a: seq<string>, b: seq<string>, default: Json)
    requires At(v, a).Some?
    ensures Walk(v, a + b, default) == Walk(At(v, a).value, b, default)
  {
    if a == [] {
      assert a + b == b;
    } else {
      assert (a + b)[0] == a[0] && (a + b)[1..] == a[1..] + b;
      WalkAlong(Lookup(v.members, a[0]).value, a[1..], b, default);
    }
  }

  /** The walk returns the value at the path whenever every segment is
      present through dicts. */
  lemma WalkFound(v: Json, keys: seq<string>, default: Json)
    requires At(v, keys).Some?
    ensures Walk(v, keys, default) == At(v, keys).value
  {
    WalkAlong(v, keys, [], default);
    assert keys + [] == keys;
  }

  /** The walk returns the default as soon as it reaches, before the last
      segment, a value that is not a dict. */
  lemma WalkNonObject(v: Json, keys: seq<string>, i: nat, default: Json)
    requires i < |keys| && At(v, keys[..i]).Some? && !At(v, keys[..i]).value.JObject?
    ensures Walk(v, keys, default) == default
  {
    WalkAlong(v, keys[..i], keys[i..], default);
    assert keys[..i] + keys[i..] == keys;
  }

  /** The walk returns the default when the dict reached before the last
      segment lacks that segment. */
  lemma WalkMissingLast(v: Json, keys: seq<string>, default: Json)
    requires |keys| > 0
    requires var front := At(v, keys[..|keys| - 1]);
      front.Some? && front.value.JObject? && keys[|keys| - 1] !in Keys(front.value.members)
    ensures Walk(v, keys, default) == default
  {
    var n := |keys| - 1;
    WalkAlong(v, keys[..n], keys[n..], default);
    assert keys[..n] + keys[n..] == keys;
  }

  /** With a default that is not a dict (None, say), the walk is exactly
      the path lookup with the default for a missing or blocked path: it
      never fails. */
  lemma {:induction false} WalkPlainDefault(v: Json, keys: seq<string>, default: Json)
    requires !default.JObject?
    ensures Walk(v, keys, default) == At(v, keys).GetOr(default)
    decreases |keys|
  {
    if keys != [] && v.JObject? {
      var next := DictGet(v, keys[0], default);
      WalkPlainDefault(next, keys[1..], default);
    }
  }

  /** `bool(v)`: None, False, 0 and empty strings, lists and dicts are
      falsy. */
  predicate Truthy(v: Json) {
    match v
    case JNull => false
    case JBool(b) => b
    case JNumber(n) => n != 0
    case JString(s) => s != ""
    case JArray(xs) => xs != []
    case JObject(ms) => ms != []
  }

  /** `str(v)`. Dicts and lists print through `render`, Python's `repr`,
      which is not modelled. */
  function Str(v: Json, render: Json -> string): string {
    match v
    case JNull => "None"
    case JBool(b) => if b then "True" else "False"
    case JNumber(n) => Decimal(n)
    case JString(s) => s
    case _ => render(v)
  }
}
