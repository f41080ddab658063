/**
 * Central configuration lookup (`Config.get`, `Config.get_all`,
 * `get_config`): a value is read from the environment as `BIOMIND_<key>`,
 * then `<key>`, then taken from the caller's default or the class defaults,
 * and coerced to the type of that default. The environment is a parameter;
 * Python's `int(str)` and `float(str)` parsers are parameters too (`None`
 * when they raise).
 */
module Config {
  import opened Common

  type Env = map<string, string>

  datatype Parsers = Parsers(toInt: string -> Option<int>, toFloat: string -> Option<real>)

  /** The result of a call that may raise. */
  datatype Outcome = Returned(value: Value) | Raised

  /** `Config.DEFAULTS`: the class default of a key, `None` for a key that
      has none. */
  function ClassDefault(key: string): Option<Value>
  {
    match key
    case "PROJECT_ID" => Some(Str("trusty-frame-474816-m0"))
    case "LOCATION" => Some(Str("us-central1"))
    case "RAG_INDEX_NAME" => Some(Str("biomind-search-index"))
    case "RAG_MAX_CONTEXT_LENGTH" => Some(Int(4000))
    case "RAG_MIN_SCORE_THRESHOLD" => Some(Real(0.5))
    case "RAG_TEMPERATURE" => Some(Real(0.3))
    case "ENABLE_PERSISTENT_INDEX" => Some(Bool(false))
    case "PERSISTENT_INDEX_PATH" => Some(Str("data/vector_store/store.npz"))
    case "MATCHING_ENGINE_ENABLED" => Some(Bool(false))
    case "MATCHING_ENGINE_INDEX_ENDPOINT" => Some(Str(""))
    case "MATCHING_ENGINE_INDEX_NAME" => Some(Str(""))
    case "MATCHING_ENGINE_DEPLOYED_INDEX_ID" => Some(Str(""))
    case "MATCHING_ENGINE_NUM_NEIGHBORS" => Some(Int(10))
    case "EMBEDDING_MODEL" => Some(Str("text-embedding-005"))
    case "GENERATION_MODEL" => Some(Str("gemini-2.5-flash-lite"))
    case "ENABLE_PUBMED" => Some(Bool(true))
    case "ENABLE_UNIPROT" => Some(Bool(true))
    case "ENABLE_DRUGBANK" => Some(Bool(false))
    case "ENABLE_GOOGLE_HEALTH_BLOG" => Some(Bool(false))
    case "CORPUS_URI" => Some(Str(""))
    case "BQ_DATASET" => Some(Str("biomind_corpus"))
    case "BQ_PAPERS_TABLE" => Some(Str("papers"))
    case "BQ_CHUNKS_TABLE" => Some(Str("chunks"))
    case "HYBRID_RETRIEVAL" => Some(Bool(false))
    case "CACHE_TTL_SECONDS" => Some(Int(300))
    case "UI_PERSIST_STATE" => Some(Bool(true))
    case "STRICT_REMOTE_CORPUS" => Some(Bool(false))
    case _ => None
  }

  /** The keys of `Config.DEFAULTS` in their dictionary order. */
  const DefaultKeys: seq<string> := [
    "PROJECT_ID", "LOCATION", "RAG_INDEX_NAME", "RAG_MAX_CONTEXT_LENGTH",
    "RAG_MIN_SCORE_THRESHOLD", "RAG_TEMPERATURE", "ENABLE_PERSISTENT_INDEX",
    "PERSISTENT_INDEX_PATH", "MATCHING_ENGINE_ENABLED", "MATCHING_ENGINE_INDEX_ENDPOINT",
    "MATCHING_ENGINE_INDEX_NAME", "MATCHING_ENGINE_DEPLOYED_INDEX_ID",
    "MATCHING_ENGINE_NUM_NEIGHBORS", "EMBEDDING_MODEL", "GENERATION_MODEL",
    "ENABLE_PUBMED", "ENABLE_UNIPROT", "ENABLE_DRUGBANK", "ENABLE_GOOGLE_HEALTH_BLOG",
    "CORPUS_URI", "BQ_DATASET", "BQ_PAPERS_TABLE", "BQ_CHUNKS_TABLE",
    "HYBRID_RETRIEVAL", "CACHE_TTL_SECONDS", "UI_PERSIST_STATE", "STRICT_REMOTE_CORPUS"
  ]

  /** The default in force: the caller's unless it is `None`, else the class
      default (`None` for an unknown key). */
  function DefaultFor(key: string, default: Value): Value
  {
    if default != Null then default else OrNull(ClassDefault(key))
  }

  function OrNull(o: Option<Value>): Value
  {
    if o.Some? then o.value else Null
  }

  /** `os.getenv(f"BIOMIND_{key}", os.getenv(key, default_value))` */
  function Raw(key: string, defaultValue: Value, env: Env): Value
  {
    if "BIOMIND_" + key in env then Str(env["BIOMIND_" + key])
    else if key in env then Str(env[key])
    else defaultValue
  }

  /** Python's `int(x)` for a float: truncation toward zero. */
  function Truncate(r: real): int
  {
    if r >= 0.0 then r.Floor else -((-r).Floor)
  }

  /** `int(value)` */
  function ToInt(v: Value, p: Parsers): Outcome
  {
    match v
    case Str(s) => (var n := p.toInt(s); if n.Some? then Returned(Int(n.value)) else Raised)
    case Int(i) => Returned(Int(i))
    case Real(r) => Returned(Int(Truncate(r)))
    case Bool(b) => Returned(Int(if b then 1 else 0))
    case _ => Raised
  }

  /** `float(value)` */
  function ToFloat(v: Value, p: Parsers): Outcome
  {
    match v
    case Str(s) => (var x := p.toFloat(s); if x.Some? then Returned(Real(x.value)) else Raised)
    case Int(i) => Returned(Real(i as real))
    case Real(r) => Returned(Real(r))
    case Bool(b) => Returned(Real(if b then 1.0 else 0.0))
    case _ => Raised
  }

  /** The coercion to the type of the default; the bool test comes first. */
  function Coerce(defaultValue: Value, v: Value, p: Parsers): Outcome
  {
    if defaultValue.Bool? then
      (if v.Str? then Returned(Bool(Lower(v.s) == "true")) else Returned(Bool(Truthy(v))))
    else if defaultValue.Int? then ToInt(v, p)
    else if defaultValue.Real? then ToFloat(v, p)
    else Returned(v)
  }

  /** `Config.get(key, default)` */
  function Get(key: string, default: Value, env: Env, p: Parsers): Outcome
  {
    var d := DefaultFor(key, default);
    Coerce(d, Raw(key, d, env), p)
  }

  /** `get_config(key, default)`: a raising lookup gives the caller's default. */
  function GetConfig(key: string, default: Value, env: Env, p: Parsers): (r: Value)
  {
    var o := Get(key, default, env, p);
    if o.Returned? then o.value else default
  }

  /** The lookup `get_all` makes for each key. */
  function Lookups(env: Env, p: Parsers): string -> Outcome
  {
    k => Get(k, Null, env, p)
  }

  /** The dictionary built by looking up each of `keys` with `f`: `None` when
      some lookup raises. */
  function AllOf(keys: seq<string>, f: string -> Outcome): (r: Option<map<string, Value>>)
  {
    if forall k :: k in keys ==> f(k).Returned? then
      Some(map k | k in keys :: f(k).value)
    else None
  }

  /** What `Config.get_all()` returns. */
  function AllConfig(env: Env, p: Parsers): Option<map<string, Value>>
  {
    AllOf(DefaultKeys, Lookups(env, p))
  }

  /** `Config.get_all` */
  method GetAll(env: Env, p: Parsers) returns (r: Option<map<string, Value>>)
    ensures r == AllConfig(env, p)
  {
    r := GetEach(DefaultKeys, Lookups(env, p));
  }

  /** The loop of `get_all`: each of `keys` in order, stopping at the first
      lookup that raises. */
  method GetEach(keys: seq<string>, f: string -> Outcome) returns (r: Option<map<string, Value>>)
    ensures r == AllOf(keys, f)
  {
    var config: map<string, Value> := map[];
    var i := 0;
    while i < |keys|
      invariant 0 <= i <= |keys|
      invariant forall k :: k in config <==> k in keys[..i]
      invariant forall k :: k in config ==> f(k) == Returned(config[k])
    {
      var o := f(keys[i]);
      if o.Raised? {
        assert keys[i] in keys;
        return None;
      }
      TakeSnoc(keys, i);
      config := config[keys[i] := o.value];
      i := i + 1;
    }
    TakeAll(keys);
    assert forall k :: k in keys ==> k in config && f(k).Returned?;
    assert config == map k | k in keys :: f(k).value;
    return Some(config);
  }

  // ------------------------------------------------------------- properties

  /** `BIOMIND_<key>` wins over `<key>`, which wins over the default. */
  lemma Precedence(key: string, default: Value, env: Env)
    ensures "BIOMIND_" + key in env ==> Raw(key, default, env) == Str(env["BIOMIND_" + key])
    ensures "BIOMIND_" + key !in env && key in env ==> Raw(key, default, env) == Str(env[key])
    ensures "BIOMIND_" + key !in env && key !in env ==> Raw(key, default, env) == default
  {
  }

  /** A caller default other than `None`, even `False` or `0`, replaces the
      class default. */
  lemma CallerDefaultWins(key: string, env: Env, p: Parsers)
    requires ClassDefault(key).Some? && "BIOMIND_" + key !in env && key !in env
    ensures Get(key, Bool(false), env, p) == Returned(Bool(false))
    ensures Get(key, Int(0), env, p) == Returned(Int(0))
    ensures Get(key, Null, env, p) == Coerce(ClassDefault(key).value, ClassDefault(key).value, p)
  {
  }

  /** With a bool default, a string is true exactly when it is "true" in any
      letter case, and any other value is read by its truthiness. */
  lemma BoolCoercion(defaultValue: Value, v: Value, p: Parsers)
    requires defaultValue.Bool?
    ensures Coerce(defaultValue, v, p).Returned? && Coerce(defaultValue, v, p).value.Bool?
    ensures v.Str? ==> (Coerce(defaultValue, v, p).value.b <==> Lower(v.s) == "true")
    ensures !v.Str? ==> (Coerce(defaultValue, v, p).value.b <==> Truthy(v))
  {
  }

  /** Numeric defaults coerce, every other default passes the value through;
      a coercion that fails raises. */
  lemma CoercionByType(defaultValue: Value, v: Value, p: Parsers)
    ensures defaultValue.Int? && Coerce(defaultValue, v, p).Returned? ==> Coerce(defaultValue, v, p).value.Int?
    ensures defaultValue.Real? && Coerce(defaultValue, v, p).Returned? ==> Coerce(defaultValue, v, p).value.Real?
    ensures (defaultValue.Str? || defaultValue.Null? || defaultValue.Date?) ==> Coerce(defaultValue, v, p) == Returned(v)
    ensures defaultValue.Int? && v == Null ==> Coerce(defaultValue, v, p) == Raised
    ensures defaultValue.Int? && v.Real? ==> Coerce(defaultValue, v, p) == Returned(Int(Truncate(v.r)))
  {
  }

  lemma TruncateTowardZero(r: real)
    ensures 0.0 <= r ==> Truncate(r) as real <= r < Truncate(r) as real + 1.0
    ensures r < 0.0 ==> Truncate(r) as real - 1.0 < r <= Truncate(r) as real
    ensures Truncate(-r) == -Truncate(r)
  {
  }

  /** When the lookup raises, `get_config` returns the caller's default,
      which may be `None`, not the class default. */
  lemma GetConfigFallback(key: string, default: Value, env: Env, p: Parsers)
    ensures Get(key, default, env, p).Raised? ==> GetConfig(key, default, env, p) == default
    ensures Get(key, default, env, p).Returned? ==> GetConfig(key, default, env, p) == Get(key, default, env, p).value
  {
  }

  /** An environment string that does not parse as an integer makes
      `get_config` fall back to `None` for a setting whose class default is an
      integer (such as `CACHE_TTL_SECONDS`). */
  lemma BadIntegerFallsBackToNone(key: string, env: Env, p: Parsers)
    requires ClassDefault(key).Some? && ClassDefault(key).value.Int?
    requires "BIOMIND_" + key in env && p.toInt(env["BIOMIND_" + key]) == None
    ensures GetConfig(key, Null, env, p) == Null
  {
  }

  /** A string setting looked up with a string default is always a string. */
  lemma StringSettingIsString(key: string, default: string, env: Env, p: Parsers)
    ensures GetConfig(key, Str(default), env, p).Str?
  {
  }

  /** The key list holds exactly the keys that have a class default, each once. */
  lemma DefaultKeysHaveDefaults(i: nat)
    requires i < |DefaultKeys|
    ensures ClassDefault(DefaultKeys[i]).Some?
  {
  }

  lemma DefaultsAreListed(k: string)
    requires ClassDefault(k).Some?
    ensures k in DefaultKeys
  {
  }

  /** `get_all` has exactly one entry per class default. */
  lemma GetAllKeys(env: Env, p: Parsers)
    ensures AllConfig(env, p).Some? ==> forall k :: k in AllConfig(env, p).value <==> ClassDefault(k).Some?
    ensures AllConfig(env, p).Some? ==> forall k :: k in DefaultKeys ==> Returned(AllConfig(env, p).value[k]) == Get(k, Null, env, p)
  {
    forall k ensures k in DefaultKeys <==> ClassDefault(k).Some? {
      if k in DefaultKeys {
        var i :| 0 <= i < |DefaultKeys| && DefaultKeys[i] == k;
        DefaultKeysHaveDefaults(i);
      }
      if ClassDefault(k).Some? {
        DefaultsAreListed(k);
      }
    }
  }
}
