/**
 * Resolution of the three load parameters (lines 29-31 of do_GET): each value
 * is taken from the query dictionary, else from the process environment, else
 * the literal "0", and then coerced; a coercion failure raises ValueError.
 */
module Params {
  import opened Wrappers
  import opened PyInt
  import opened Query
  import opened Text

  const CpuKey := "cpu_load_seconds"
  const MemoryKey := "memory_load_mb"
  const DelayKey := "delay_seconds"
  const CpuEnv := "CPU_LOAD_SECONDS"
  const MemoryEnv := "MEMORY_LOAD_MB"
  const DelayEnv := "DELAY_SECONDS"
  const Fallback := "0"

  /** The resolved parameters of one request. Negative values are kept as they are. */
  datatype Load = Load(cpuSeconds: int, memoryMb: int, delaySeconds: real)

  /** Why a request's handler raised before any load phase. */
  datatype ParamError =
    | BadQuery(cause: QueryError)
    | NotAnInt(key: string, text: string)
    | NotAFloat(text: string)

  /** `params.get(key, os.environ.get(envKey, '0'))`. */
  function Lookup(params: map<string, string>, env: map<string, string>, key: string, envKey: string): (text: string)
    ensures text in params.Values || text in env.Values || text == Fallback
    ensures key in params ==> text == params[key]
  {
    if key in params then params[key]
    else if envKey in env then env[envKey]
    else Fallback
  }

  /** `int(...)` of a looked-up text, raising with the key that supplied it. */
  function CoerceInt(key: string, text: string): (r: Result<int, ParamError>)
    ensures r.Success? <==> ParseInt(text).Some?
    ensures r.Success? ==> Some(r.value) == ParseInt(text)
    ensures r.Failure? ==> r.error == NotAnInt(key, text)
  {
    match ParseInt(text)
    case Some(n) => Success(n)
    case None => Failure(NotAnInt(key, text))
  }

  /** Lines 29-31: resolve and coerce the CPU seconds, the memory megabytes and
      the delay, in that order; `toFloat` stands for Python's `float()`. */
  function ResolveLoad(params: map<string, string>, env: map<string, string>, toFloat: string -> Option<real>)
    : (r: Result<Load, ParamError>)
    ensures r.Failure? ==> !r.error.BadQuery?
    ensures r.Failure? && r.error.NotAnInt? ==> r.error.key == CpuKey || r.error.key == MemoryKey
  {
    var cpuText := Lookup(params, env, CpuKey, CpuEnv);
    var memoryText := Lookup(params, env, MemoryKey, MemoryEnv);
    var delayText := Lookup(params, env, DelayKey, DelayEnv);
    match CoerceInt(CpuKey, cpuText)
    case Failure(e) => Failure(e)
    case Success(cpu) =>
      match CoerceInt(MemoryKey, memoryText)
      case Failure(e) => Failure(e)
      case Success(memory) =>
        match toFloat(delayText)
        case None => Failure(NotAFloat(delayText))
        case Some(delay) => Success(Load(cpu, memory, delay))
  }

  /** Lines 20-31: the parameters of the request for `path`. */
  function ResolveRequest(path: string, env: map<string, string>, toFloat: string -> Option<real>)
    : (r: Result<Load, ParamError>)
    ensures (r.Failure? && r.error.BadQuery?) <==> QueryParams(path).Failure?
    ensures r.Failure? && r.error.BadQuery? ==> '?' in path && Count(r.error.cause.segment, '=') >= 2
  {
    match QueryParams(path)
    case Failure(e) => Failure(BadQuery(e))
    case Success(params) => ResolveLoad(params, env, toFloat)
  }

  /** Resolution order for any parameter, the delay included: the query value
      when present, else the environment's, else "0". For an integer parameter a
      text that is present but not an integer is an error, never replaced by
      the next source. */
  lemma ResolutionOrder(params: map<string, string>, env: map<string, string>, key: string, envKey: string)
    ensures key in params ==>
      CoerceInt(key, Lookup(params, env, key, envKey)) ==
        (if ParseInt(params[key]).Some? then Success(ParseInt(params[key]).value) else Failure(NotAnInt(key, params[key])))
    ensures key !in params && envKey in env ==>
      CoerceInt(key, Lookup(params, env, key, envKey)) ==
        (if ParseInt(env[envKey]).Some? then Success(ParseInt(env[envKey]).value) else Failure(NotAnInt(key, env[envKey])))
    ensures key !in params && envKey !in env ==> CoerceInt(key, Lookup(params, env, key, envKey)) == Success(0)
    ensures key !in params && envKey in env ==> Lookup(params, env, key, envKey) == env[envKey]
    ensures key !in params && envKey !in env ==> Lookup(params, env, key, envKey) == Fallback
  {
  }

  /** A present but malformed query value makes resolution fail whatever the
      environment holds; the failure names that value once the values coerced
      before it (CPU, then memory) have resolved. */
  lemma MalformedValueIsError(params: map<string, string>, env: map<string, string>, toFloat: string -> Option<real>)
    ensures CpuKey in params && ParseInt(params[CpuKey]) == None ==>
      ResolveLoad(params, env, toFloat) == Failure(NotAnInt(CpuKey, params[CpuKey]))
    ensures (MemoryKey in params && ParseInt(params[MemoryKey]) == None
             && ParseInt(Lookup(params, env, CpuKey, CpuEnv)).Some?) ==>
      ResolveLoad(params, env, toFloat) == Failure(NotAnInt(MemoryKey, params[MemoryKey]))
    ensures (DelayKey in params && toFloat(params[DelayKey]) == None
             && ParseInt(Lookup(params, env, CpuKey, CpuEnv)).Some?
             && ParseInt(Lookup(params, env, MemoryKey, MemoryEnv)).Some?) ==>
      ResolveLoad(params, env, toFloat) == Failure(NotAFloat(params[DelayKey]))
    ensures MemoryKey in params && ParseInt(params[MemoryKey]) == None ==> ResolveLoad(params, env, toFloat).Failure?
    ensures DelayKey in params && toFloat(params[DelayKey]) == None ==> ResolveLoad(params, env, toFloat).Failure?
  {
  }

  /** Resolution succeeds exactly when all three looked-up texts coerce, and
      then each value is the coercion of its first available source. */
  lemma ResolvedValues(params: map<string, string>, env: map<string, string>, toFloat: string -> Option<real>)
    ensures ResolveLoad(params, env, toFloat).Success? <==>
      && ParseInt(Lookup(params, env, CpuKey, CpuEnv)).Some?
      && ParseInt(Lookup(params, env, MemoryKey, MemoryEnv)).Some?
      && toFloat(Lookup(params, env, DelayKey, DelayEnv)).Some?
    ensures ResolveLoad(params, env, toFloat).Success? ==> var load := ResolveLoad(params, env, toFloat).value;
      && Some(load.cpuSeconds) == ParseInt(Lookup(params, env, CpuKey, CpuEnv))
      && Some(load.memoryMb) == ParseInt(Lookup(params, env, MemoryKey, MemoryEnv))
      && Some(load.delaySeconds) == toFloat(Lookup(params, env, DelayKey, DelayEnv))
  {
  }

  /** Keys other than the three recognised ones are stored but never consulted. */
  lemma UnrecognisedKeysIgnored(params: map<string, string>, env: map<string, string>,
                                toFloat: string -> Option<real>, key: string, value: string)
    requires key != CpuKey && key != MemoryKey && key != DelayKey
    ensures ResolveLoad(params[key := value], env, toFloat) == ResolveLoad(params, env, toFloat)
  {
    var updated := params[key := value];
    assert Lookup(updated, env, CpuKey, CpuEnv) == Lookup(params, env, CpuKey, CpuEnv);
    assert Lookup(updated, env, MemoryKey, MemoryEnv) == Lookup(params, env, MemoryKey, MemoryEnv);
    assert Lookup(updated, env, DelayKey, DelayEnv) == Lookup(params, env, DelayKey, DelayEnv);
    SameLookupsSameLoad(updated, params, env, toFloat);
  }

  /** Resolution reads the dictionary only through the three lookups. */
  lemma SameLookupsSameLoad(p: map<string, string>, q: map<string, string>, env: map<string, string>,
                            toFloat: string -> Option<real>)
    requires Lookup(p, env, CpuKey, CpuEnv) == Lookup(q, env, CpuKey, CpuEnv)
    requires Lookup(p, env, MemoryKey, MemoryEnv) == Lookup(q, env, MemoryKey, MemoryEnv)
    requires Lookup(p, env, DelayKey, DelayEnv) == Lookup(q, env, DelayKey, DelayEnv)
    ensures ResolveLoad(p, env, toFloat) == ResolveLoad(q, env, toFloat)
  {
  }

  /** A path without `?` takes every parameter from the environment or "0". */
  lemma NoQueryUsesEnvironment(path: string, env: map<string, string>, toFloat: string -> Option<real>)
    requires '?' !in path
    ensures ResolveRequest(path, env, toFloat) == ResolveLoad(map[], env, toFloat)
    ensures CpuEnv !in env && MemoryEnv !in env && DelayEnv !in env && toFloat(Fallback) == Some(0.0) ==>
      ResolveRequest(path, env, toFloat) == Success(Load(0, 0, 0.0))
  {
  }

  /** Negative integers are accepted as they are, not rejected or clamped. */
  lemma NegativeValuesAccepted(n: int, env: map<string, string>, toFloat: string -> Option<real>)
    requires n < 0
    requires toFloat(Lookup(map[CpuKey := FormatInt(n)], env, DelayKey, DelayEnv)).Some?
    requires ParseInt(Lookup(map[CpuKey := FormatInt(n)], env, MemoryKey, MemoryEnv)).Some?
    ensures ResolveLoad(map[CpuKey := FormatInt(n)], env, toFloat).Success?
    ensures ResolveLoad(map[CpuKey := FormatInt(n)], env, toFloat).value.cpuSeconds == n
  {
    IntRoundTrip(n);
  }
}
