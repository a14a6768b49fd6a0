/** Lookups over the loaded YAML configuration: `dict.get` with a default,
    the dot-path walk of `get_nested`, and the defaulting that turns the
    `github` and `local` sections into configuration records. The YAML
    document arrives already parsed, as a `Json` value; a missing file is
    `None`. */
module YamlParser {
  import opened Wrappers
  import opened PyStr
  import opened Json

  datatype ConfigError =
    | AttributeError   // `.get` called on a value that is not a dict
    | FileNotFound

  datatype GithubConfig = GithubConfig(
    activeTeamMembers: Json, organisation: Json, team: Json, ignoredRepositories: Json)

  datatype LocalConfig = LocalConfig(activeWorkingDirectory: Json)

  datatype Config = Config(github: GithubConfig, local: LocalConfig)

  /** `v.get(key, default)`: fails unless `v` is a dict; gives the value
      stored under `key`, or `default` when there is none. */
  function PyGet(v: Json, key: string, default: Json): (r: Result<Json, ConfigError>)
    ensures r.Err? <==> !v.JObject?
    ensures r.Err? ==> r.error == AttributeError
    ensures r.Ok? && key in Keys(v.members) ==>
      exists i :: 0 <= i < |v.members| && v.members[i] == Member(key, r.value)
    ensures r.Ok? && key !in Keys(v.members) ==> r.value == default
  {
    if v.JObject? then Ok(DictGet(v, key, default)) else Err(AttributeError)
  }

  /** `yaml.safe_load(f) or {}`: a falsy document becomes the empty dict. */
  function OrEmpty(loaded: Json): (d: Json)
    ensures Truthy(loaded) ==> d == loaded
    ensures !Truthy(loaded) ==> d == JObject([])
    ensures Truthy(d) || d == JObject([])
  {
    if Truthy(loaded) then loaded else JObject([])
  }

  const EmptyGithub: GithubConfig := GithubConfig(JArray([]), JString(""), JString(""), JArray([]))

  /** `__get_github_config`: the `github` section (an empty dict when
      absent), each setting read with its default. */
  function GithubSection(data: Json): Result<GithubConfig, ConfigError> {
    match PyGet(data, "github", JObject([]))
    case Err(e) => Err(e)
    case Ok(g) =>
      if !g.JObject? then Err(AttributeError)
      else Ok(GithubConfig(
        DictGet(g, "active-team-members", JArray([])),
        DictGet(g, "organisation", JString("")),
        DictGet(g, "team", JString("")),
        DictGet(g, "ignored-repositories", JArray([]))))
  }

  /** `__get_local_config`: the `local` section (an empty dict when
      absent), its working directory defaulting to the empty string. */
  function LocalSection(data: Json): Result<LocalConfig, ConfigError> {
    match PyGet(data, "local", JObject([]))
    case Err(e) => Err(e)
    case Ok(l) =>
      if !l.JObject? then Err(AttributeError)
      else Ok(LocalConfig(DictGet(l, "active-working-directory", JString(""))))
  }

  /** The record `__init__` builds, github section first. */
  function ConfigOf(data: Json): Result<Config, ConfigError> {
    match GithubSection(data)
    case Err(e) => Err(e)
    case Ok(g) =>
      match LocalSection(data)
      case Err(e) => Err(e)
      case Ok(l) => Ok(Config(g, l))
  }

  /** A missing `github` section behaves like an empty one: every setting
      takes its default, empty lists for the member and repository lists
      and empty strings for the organisation and the team. */
  lemma GithubDefaults(data: Json)
    requires data.JObject?
    requires "github" !in Keys(data.members) || Lookup(data.members, "github") == Some(JObject([]))
    ensures GithubSection(data) == Ok(EmptyGithub)
  {
    var none: seq<Member> := [];
    assert Keys(none) == [];
  }

  /** Each GitHub setting of a dict section is taken as written when
      present and takes its own default when absent: empty lists for the
      member and repository lists, empty strings for the organisation and
      the team. */
  lemma GithubReadsSection(data: Json, g: Json)
    requires data.JObject? && Lookup(data.members, "github") == Some(g) && g.JObject?
    ensures GithubSection(data).Ok?
    ensures var c := GithubSection(data).value;
      && ("organisation" in Keys(g.members) ==> Some(c.organisation) == Lookup(g.members, "organisation"))
      && ("organisation" !in Keys(g.members) ==> c.organisation == JString(""))
      && ("team" in Keys(g.members) ==> Some(c.team) == Lookup(g.members, "team"))
      && ("team" !in Keys(g.members) ==> c.team == JString(""))
      && ("active-team-members" in Keys(g.members) ==>
            Some(c.activeTeamMembers) == Lookup(g.members, "active-team-members"))
      && ("active-team-members" !in Keys(g.members) ==> c.activeTeamMembers == JArray([]))
      && ("ignored-repositories" in Keys(g.members) ==>
            Some(c.ignoredRepositories) == Lookup(g.members, "ignored-repositories"))
      && ("ignored-repositories" !in Keys(g.members) ==> c.ignoredRepositories == JArray([]))
  {
  }

  /** A `github` or `local` key that is present but not a dict (an empty
      `github:` entry loads as None) makes the section's `.get` fail. */
  lemma SectionNotDict(data: Json, key: string, x: Json)
    requires data.JObject? && key in {"github", "local"}
    requires Lookup(data.members, key) == Some(x) && !x.JObject?
    ensures ConfigOf(data) == Err(AttributeError)
  {
    if key == "github" {
      assert GithubSection(data) == Err(AttributeError);
    } else {
      assert LocalSection(data) == Err(AttributeError);
    }
  }

  /** A missing `local` section, or one without `active-working-directory`,
      gives the empty string. */
  lemma LocalDefaults(data: Json)
    requires data.JObject?
    requires match Lookup(data.members, "local")
      case None => true
      case Some(l) => l.JObject? && "active-working-directory" !in Keys(l.members)
    ensures LocalSection(data) == Ok(LocalConfig(JString("")))
  {
    var none: seq<Member> := [];
    assert Keys(none) == [];
  }

  /** An empty or null YAML file yields the configuration of defaults. */
  lemma EmptyFileDefaults(loaded: Json)
    requires !Truthy(loaded)
    ensures ConfigOf(OrEmpty(loaded)) == Ok(Config(EmptyGithub, LocalConfig(JString(""))))
  {
    GithubDefaults(JObject([]));
    LocalDefaults(JObject([]));
  }

  /** `YAMLConfig` after loading: the document and the record built from it
      at construction. */
  class YamlConfig {
    var data: Json
    var config: Config

    /** `__init__` once `load` has read `loaded` and the sections have been
        read without error; `Open` decides when that is. */
    constructor (loaded: Json)
      requires ConfigOf(OrEmpty(loaded)).Ok?
      ensures data == OrEmpty(loaded) && config == ConfigOf(data).value
    {
      data := OrEmpty(loaded);
      config := ConfigOf(OrEmpty(loaded)).value;
    }

    /** `reload`: a missing file fails and keeps the document; otherwise the
        document is replaced. The record built at construction is not
        rebuilt. */
    method Reload(file: Option<Json>) returns (err: Option<ConfigError>)
      modifies this
      ensures file.None? ==> err == Some(FileNotFound) && data == old(data)
      ensures file.Some? ==> err.None? && data == OrEmpty(file.value)
      ensures config == old(config)
    {
      if file.None? {
        return Some(FileNotFound);
      }
      data := OrEmpty(file.value);
      err := None;
    }

    /** `get(key, default)` */
    function Get(key: string, default: Json): (r: Result<Json, ConfigError>)
      reads this
      ensures r.Err? <==> !data.JObject?
      ensures r.Err? ==> r.error == AttributeError
      ensures r.Ok? && key in Keys(data.members) ==>
        exists i :: 0 <= i < |data.members| && data.members[i] == Member(key, r.value)
      ensures r.Ok? && key !in Keys(data.members) ==> r.value == default
    {
      PyGet(data, key, default)
    }

    /** `get_nested(path, default)`: the walk down the dot-separated path,
        `default` standing in for a missing key and for the whole answer
        once a non-dict is reached. */
    method GetNested(path: string, default: Json) returns (v: Json)
      ensures v == Walk(data, Split(path, '.'), default)
    {
      var parts := Split(path, '.');
      v := data;
      var i := 0;
      while i < |parts|
        invariant 0 <= i <= |parts|
        invariant Walk(data, parts, default) == Walk(v, parts[i..], default)
      {
        assert parts[i..][0] == parts[i] && parts[i..][1..] == parts[i + 1..];
        if !v.JObject? {
          return default;
        }
        v := DictGet(v, parts[i], default);
        i := i + 1;
      }
    }
  }

  /** `YAMLConfig(path)`: fails when the file is missing or a section's
      `.get` fails, and otherwise holds the loaded document and its
      record. */
  method Open(file: Option<Json>) returns (r: Result<YamlConfig, ConfigError>)
    ensures file.None? ==> r == Err(FileNotFound)
    ensures file.Some? ==> match ConfigOf(OrEmpty(file.value))
      case Err(e) => r == Err(e)
      case Ok(c) => r.Ok? && fresh(r.value) && r.value.data == OrEmpty(file.value) && r.value.config == c
  {
    if file.None? {
      return Err(FileNotFound);
    }
    if ConfigOf(OrEmpty(file.value)).Err? {
      return Err(ConfigOf(OrEmpty(file.value)).error);
    }
    var c := new YamlConfig(file.value);
    r := Ok(c);
  }

  // ---------------------------------------------------------------- the default inside the walk

  /** As written, a missing key makes the default the current value, and
      the walk carries on inside it when it is a dict: on `{}` the path
      `a.b` with default `{"b": 5}` answers 5, though no `a` exists. */
  lemma WalkIntoDefault()
    ensures Split("a.b", '.') == ["a", "b"]
    ensures At(JObject([]), ["a", "b"]).None?
    ensures Walk(JObject([]), Split("a.b", '.'), JObject([Member("b", JNumber(5))])) == JNumber(5)
  {
    JoinSplit(["a", "b"], '.');
    assert Join(["a", "b"], '.') == "a.b";
  }

  /** `get_nested` as its contract reads: the value at the path when every
      segment is present through dicts, otherwise the default. */
  function NestedOrDefault(v: Json, keys: seq<string>, default: Json): Json {
    At(v, keys).GetOr(default)
  }

  /** The walk as written agrees with the intended lookup whenever the path
      is present, and on every path when the default is not a dict; only a
      dict default on a missing path tells them apart. */
  lemma NestedOrDefaultAgrees(v: Json, keys: seq<string>, default: Json)
    requires At(v, keys).Some? || !default.JObject?
    ensures Walk(v, keys, default) == NestedOrDefault(v, keys, default)
    ensures At(v, keys).Some? ==> NestedOrDefault(v, keys, default) == At(v, keys).value
    ensures At(v, keys).None? ==> NestedOrDefault(v, keys, default) == default
  {
    if At(v, keys).Some? {
      WalkFound(v, keys, default);
    } else {
      WalkPlainDefault(v, keys, default);
    }
  }
}
