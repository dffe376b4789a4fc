/**
 * `LoadHandler.do_GET`: write the response, resolve the parameters, then run
 * the CPU, memory and delay phases in that order, each only when its value is
 * positive, and finish with "Request processed". What the handler does to the
 * outside world is recorded as a trace of events.
 */
module Handler {
  import opened Wrappers
  import opened PyInt
  import opened Query
  import opened Params

  /** Observable steps of one request. */
  datatype Event =
    | Responded(status: int, contentType: string, body: string)
    | CpuLoad(cpuSeconds: int)
    | MemoryLoad(megabytes: int, elements: int)
    | Delay(delaySeconds: real)
    | Processed

  /** Lines 14-17: status 200, an HTML content type and the greeting. */
  const Response := Responded(200, "text/html", "Hello, Load Generator!")

  /** Bytes taken by one element of the ballast list. */
  const ElementBytes := 8

  /** Line 50: the number of list elements allocated for `mb` megabytes,
      `(mb * 1024 * 1024) / 8`. */
  function BallastElements(mb: int): (elements: nat)
    requires mb > 0
    ensures elements * 8 == mb * 1024 * 1024
    ensures elements == mb * 131072
  {
    var bytes := mb * 1024 * 1024;
    assert bytes == mb * 131072 * ElementBytes;
    bytes / ElementBytes
  }

  /** `[0] * n`. */
  function Zeros(n: nat): (z: seq<int>)
    ensures |z| == n && forall i :: 0 <= i < n ==> z[i] == 0
  {
    seq(n, _ => 0)
  }

  /** The load phases that run for `load`, in the order the handler runs them. */
  function Phases(load: Load): (p: seq<Event>)
    ensures |p| <= 3
    ensures forall i :: 0 <= i < |p| ==> !p[i].Responded? && !p[i].Processed?
  {
    (if load.cpuSeconds > 0 then [CpuLoad(load.cpuSeconds)] else [])
    + (if load.memoryMb > 0 then [MemoryLoad(load.memoryMb, BallastElements(load.memoryMb))] else [])
    + (if load.delaySeconds > 0.0 then [Delay(load.delaySeconds)] else [])
  }

  /** The events of a request whose parameters resolved to `load`. */
  function LoadTrace(load: Load): (t: seq<Event>)
    ensures 2 <= |t| <= 5 && t[0] == Response && t[|t| - 1] == Processed
  {
    [Response] + Phases(load) + [Processed]
  }

  /** The events of the request for `path`: when resolution raises, the
      response has already been written and nothing else happens. */
  function RequestTrace(path: string, env: map<string, string>, toFloat: string -> Option<real>): (t: seq<Event>)
    ensures |t| >= 1 && t[0] == Response
    ensures |t| == 1 <==> ResolveRequest(path, env, toFloat).Failure?
  {
    match ResolveRequest(path, env, toFloat)
    case Success(load) => LoadTrace(load)
    case Failure(_) => [Response]
  }

  /** The trace of a request whose resolution is known. */
  lemma RequestTraceOf(path: string, env: map<string, string>, toFloat: string -> Option<real>,
                       outcome: Result<Load, ParamError>)
    requires outcome == ResolveRequest(path, env, toFloat)
    ensures RequestTrace(path, env, toFloat) ==
      if outcome.Success? then [Response] + (Phases(outcome.value) + [Processed]) else [Response]
  {
  }

  /** Appending in two steps is appending once. */
  lemma Associative(a: seq<Event>, b: seq<Event>, c: seq<Event>)
    ensures (a + b) + c == a + (b + c)
  {
  }

  /** The position of each kind of event in the fixed order of a request. */
  function Rank(e: Event): nat
  {
    match e
    case Responded(_, _, _) => 0
    case CpuLoad(_) => 1
    case MemoryLoad(_, _) => 2
    case Delay(_) => 3
    case Processed => 4
  }

  /** The response comes first and is written exactly once, whether or not
      the parameters resolve. */
  lemma ResponseFirst(path: string, env: map<string, string>, toFloat: string -> Option<real>)
    ensures var t := RequestTrace(path, env, toFloat);
      |t| >= 1 && t[0] == Response && forall i :: 0 < i < |t| ==> !t[i].Responded?
  {
  }

  /** "Request processed" is logged exactly when the parameters resolve, and
      then as the last event; a malformed query or value leaves only the
      response. */
  lemma ProcessedLastIffResolved(path: string, env: map<string, string>, toFloat: string -> Option<real>)
    ensures var t := RequestTrace(path, env, toFloat);
      && (Processed in t <==> ResolveRequest(path, env, toFloat).Success?)
      && (ResolveRequest(path, env, toFloat).Success? ==> t[|t| - 1] == Processed)
      && (ResolveRequest(path, env, toFloat).Failure? ==> t == [Response])
  {
  }

  /** Every event of a request comes strictly after every event of lower rank:
      response, CPU, memory, delay, processed, each at most once. */
  lemma PhaseOrder(load: Load)
    ensures var t := LoadTrace(load);
      forall i, j :: 0 <= i < j < |t| ==> Rank(t[i]) < Rank(t[j])
  {
  }

  /** Each phase appears exactly when its value is positive and carries that
      value; zero and negative values skip the phase without a trace. */
  lemma PhaseGating(load: Load)
    ensures var t := LoadTrace(load);
      && ((exists i :: 0 <= i < |t| && t[i].CpuLoad?) <==> load.cpuSeconds > 0)
      && ((exists i :: 0 <= i < |t| && t[i].MemoryLoad?) <==> load.memoryMb > 0)
      && ((exists i :: 0 <= i < |t| && t[i].Delay?) <==> load.delaySeconds > 0.0)
      && (forall i :: 0 <= i < |t| && t[i].CpuLoad? ==> t[i].cpuSeconds == load.cpuSeconds)
      && (forall i :: 0 <= i < |t| && t[i].MemoryLoad? ==>
            t[i].megabytes == load.memoryMb && t[i].elements * 8 == load.memoryMb * 1024 * 1024)
      && (forall i :: 0 <= i < |t| && t[i].Delay? ==> t[i].delaySeconds == load.delaySeconds)
  {
    var t := LoadTrace(load);
    if load.cpuSeconds > 0 { assert t[1].CpuLoad?; }
    if load.memoryMb > 0 {
      var i := if load.cpuSeconds > 0 then 2 else 1;
      assert t[i].MemoryLoad?;
    }
    if load.delaySeconds > 0.0 { assert t[|t| - 2].Delay?; }
  }

  /** A request with no positive value goes straight from the response to
      "Request processed". */
  lemma IdleRequest(load: Load)
    requires load.cpuSeconds <= 0 && load.memoryMb <= 0 && load.delaySeconds <= 0.0
    ensures LoadTrace(load) == [Response, Processed]
  {
  }

  /** Lines 20-31: parse the query of `path`, then resolve and coerce the three
      parameters. A `Failure` is the ValueError raised on the way. */
  method ResolveParameters(path: string, env: map<string, string>, toFloat: string -> Option<real>)
    returns (outcome: Result<Load, ParamError>)
    ensures outcome == ResolveRequest(path, env, toFloat)
  {
    var query := ParseQuery(path);
    if query.Failure? {
      return Failure(BadQuery(query.error));
    }
    outcome := ResolveLoad(query.value, env, toFloat);
  }

  /** The handler of one request (socketserver creates one per connection). */
  class LoadHandler {
    /** The request target, `self.path`. */
    const path: string
    /** The events of this request so far. */
    var trace: seq<Event>
    /** `self.large_list`, present once the memory phase has allocated it. */
    var largeList: Option<seq<int>>

    constructor (path: string)
      ensures this.path == path && trace == [] && largeList == None
    {
      this.path := path;
      trace := [];
      largeList := None;
    }

    /** Lines 13-67. `env` is the process environment and `toFloat` Python's
        `float()`; a `Failure` is the ValueError that escapes the handler. */
    method DoGet(env: map<string, string>, toFloat: string -> Option<real>) returns (outcome: Result<Load, ParamError>)
      modifies this
      ensures outcome == ResolveRequest(path, env, toFloat)
      ensures trace == old(trace) + RequestTrace(path, env, toFloat)
      ensures largeList ==
        if outcome.Success? && outcome.value.memoryMb > 0
        then Some(Zeros(BallastElements(outcome.value.memoryMb)))
        else old(largeList)
    {
      trace := trace + [Response];
      outcome := ResolveParameters(path, env, toFloat);
      RequestTraceOf(path, env, toFloat, outcome);
      if outcome.Success? {
        var load := outcome.value;
        RunPhases(load);
        Associative(old(trace), [Response], Phases(load) + [Processed]);
      }
    }

    /** Lines 33-67: the three phases in order, each gated on its value, then
        "Request processed". */
    method RunPhases(load: Load)
      modifies this
      ensures trace == old(trace) + (Phases(load) + [Processed])
      ensures largeList ==
        if load.memoryMb > 0 then Some(Zeros(BallastElements(load.memoryMb))) else old(largeList)
    {
      if load.cpuSeconds > 0 {
        trace := trace + [CpuLoad(load.cpuSeconds)];
      }
      if load.memoryMb > 0 {
        var elements := BallastElements(load.memoryMb);
        largeList := Some(Zeros(elements));
        trace := trace + [MemoryLoad(load.memoryMb, elements)];
      }
      if load.delaySeconds > 0.0 {
        trace := trace + [Delay(load.delaySeconds)];
      }
      trace := trace + [Processed];
    }
  }
}
