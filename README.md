# Load simulator request handler, modelled in Dafny

The load simulator is a small HTTP service that lets an autoscaler be exercised:
each GET request may ask for a number of seconds of CPU burn, a number of
megabytes of memory held for the length of the request, and a delay. This
project models the request handler `LoadHandler.do_GET` of
`vpa-load-simulator/load_simulator.py` in three parts:

- **Query parsing** (module `Query`, over Python's `str.split` in module `Text`):
  the path is split on `?`, the second piece is split on `&`, and every segment
  that holds `=` is unpacked into a key and a value and stored in a dictionary.
  `ParseQuery` is the loop as the handler runs it, proved equal to the
  specification function `QueryParams`, about which the lemmas are stated.
- **Parameter resolution** (modules `Params` and `PyInt`): each of
  `cpu_load_seconds`, `memory_load_mb` and `delay_seconds` is taken from the
  query, else from the environment variables `CPU_LOAD_SECONDS`,
  `MEMORY_LOAD_MB` and `DELAY_SECONDS`, else the literal `"0"`, and coerced with
  Python's `int()` (modelled as a decimal parser returning `Option<int>`) or
  `float()` (a parameter `toFloat`).
- **Phases** (module `Handler`): the class `LoadHandler` holds the request path,
  the trace of what the handler has done and the ballast list `large_list`.
  `DoGet` writes the response first, then runs the CPU, memory and delay phases
  in that order, each only when its value is positive, and ends with "Request
  processed". The ballast holds `mb * 1024 * 1024 / 8` elements.

## Behaviour of the code worth noting

- A segment with two or more `=` raises ValueError: the handler unpacks
  `segment.split('=')` into exactly two names and does not split on the first
  `=` (`Query.BindSucceedsIff`, `Query.BindAllFailsIff`).
- A malformed value makes `int()` or `float()` raise ValueError after the
  response has been written. The trace of such a request is the response
  alone, with no phase and no "Request processed"
  (`Handler.ProcessedLastIffResolved`).
- Negative integers are accepted, and the phase they gate is skipped
  (`Params.NegativeValuesAccepted`, `Handler.PhaseGating`).
- Query values are not percent-decoded, by the code or by the model.

## Model

| member | source | states |
|---|---|---|
| `Text.Split` | vpa-load-simulator/load_simulator.py:20-26 | `str.split(sep)` gives at least one piece and no piece holds the separator |
| `Text.JoinSplit` | vpa-load-simulator/load_simulator.py:20-26 | joining the pieces of a split with the separator gives the string back |
| `Text.SplitJoin` | vpa-load-simulator/load_simulator.py:20-26 | splitting a join of separator-free pieces gives the pieces back |
| `Text.SplitConcat` | vpa-load-simulator/load_simulator.py:20-23 | the text before the first separator is the first piece and the rest splits on its own |
| `Text.SplitLength` | vpa-load-simulator/load_simulator.py:26 | a split yields one more piece than the string has separators |
| `PyInt.ParseInt` | vpa-load-simulator/load_simulator.py:29-30 | `int(text)` on a string: a number only for a stripped text that, after an optional leading sign, is a digit group (digits and single underscores between digits, so `_1`, `1__0` and `1_` are rejected); only a leading `-` gives a negative number |
| `PyInt.IntRoundTrip` | vpa-load-simulator/load_simulator.py:29-30 | `int(str(n)) == n` for every integer, negative ones included |
| `PyInt.BlankIsNotInt` | vpa-load-simulator/load_simulator.py:29-30 | an empty or all-whitespace text makes `int()` fail |
| `PyInt.ForeignCharIsNotInt` | vpa-load-simulator/load_simulator.py:29-30 | a text holding a character other than digit, sign, underscore or whitespace makes `int()` fail, so a malformed value is never read as a number |
| `Query.Segments` | vpa-load-simulator/load_simulator.py:20-24 | the `&`-separated segments of the text between the first and the second `?`; none without `?`, and no segment holds `&` |
| `Query.Bind` | vpa-load-simulator/load_simulator.py:25-27 | one loop pass: keys already stored stay stored; a failure is the ValueError of a segment with two or more `=` |
| `Query.BindAll` | vpa-load-simulator/load_simulator.py:24-27 | the loop over all segments: a failure names a segment of the list that holds two or more `=` |
| `Query.QueryParams` | vpa-load-simulator/load_simulator.py:20-27 | the dictionary built from a path: empty without `?`; a failure names one of the path's segments |
| `Query.ParseQuery` | vpa-load-simulator/load_simulator.py:20-27 | the loop that updates the dictionary segment by segment returns exactly `QueryParams(path)`, the error of the first bad segment included |
| `Query.FailureSticks` | vpa-load-simulator/load_simulator.py:24-27 | once a segment has raised, the loop's outcome is that error whatever follows |
| `Query.BindOneEquals` | vpa-load-simulator/load_simulator.py:26-27 | a segment `key=value` with a single `=` stores `value` under `key` |
| `Query.BindSucceedsIff` | vpa-load-simulator/load_simulator.py:25-27 | a segment is accepted if and only if it holds at most one `=`; without `=` it leaves the dictionary unchanged; with one it stores the text after `=` under the text before it |
| `Query.NoQueryNoParams` | vpa-load-simulator/load_simulator.py:20-22 | a path without `?` yields an empty dictionary |
| `Query.TextAfterSecondMarkIgnored` | vpa-load-simulator/load_simulator.py:20-24 | only the text between the first and the second `?` is parsed; text after a second `?` changes nothing |
| `Query.BindAllFailsIff` | vpa-load-simulator/load_simulator.py:24-27 | parsing fails if and only if some segment holds two or more `=`, and then with the first such segment |
| `Query.LastOccurrenceWins` | vpa-load-simulator/load_simulator.py:24-27 | a key bound by a segment that no later segment rebinds holds that segment's value |
| `Query.OnlyBoundKeys` | vpa-load-simulator/load_simulator.py:24-27 | every stored key and value come from some segment `key=value` with a single `=` |
| `Query.BareSegmentsSkipped` | vpa-load-simulator/load_simulator.py:24-25 | dropping the segments without `=` does not change the outcome |
| `Query.DuplicateKeyLastWins` | vpa-load-simulator/load_simulator.py:20-27 | `?k=1&k=5` stores `k` as `5` |
| `Params.Lookup` | vpa-load-simulator/load_simulator.py:29-31 | `params.get(key, os.environ.get(envKey, '0'))`: a query value, an environment value or `"0"`, the query value whenever the key is present (the rest of the order is stated by `Params.ResolutionOrder`) |
| `Params.CoerceInt` | vpa-load-simulator/load_simulator.py:29-30 | `int()` of a looked-up text succeeds exactly when the text parses, with its value; otherwise the error names the key and the text |
| `Params.ResolveLoad` | vpa-load-simulator/load_simulator.py:29-31 | the three coercions in order; a failure is never a query error, and an integer failure names the CPU or the memory key |
| `Params.ResolveRequest` | vpa-load-simulator/load_simulator.py:20-31 | query parsing then resolution; a query error occurs exactly when the query fails to parse, and then the path has a `?` and the segment two or more `=` |
| `Handler.ResolveParameters` | vpa-load-simulator/load_simulator.py:20-31 | the parsing loop followed by the coercions returns exactly `ResolveRequest` |
| `Params.ResolutionOrder` | vpa-load-simulator/load_simulator.py:29-31 | every parameter, `delay_seconds` included, is looked up in the query, else under its environment variable, else is `"0"`; for an integer parameter `"0"` gives 0, and a present but malformed text is an error, never replaced by the next source |
| `Params.MalformedValueIsError` | vpa-load-simulator/load_simulator.py:29-31 | resolution fails in any case when a value in the query is malformed; it fails with that key and text once the values before it (CPU, then memory, as lines 29-31 evaluate them) resolve |
| `Params.ResolvedValues` | vpa-load-simulator/load_simulator.py:29-31 | resolution succeeds if and only if all three looked-up texts coerce, and then holds their coercions |
| `Params.UnrecognisedKeysIgnored` | vpa-load-simulator/load_simulator.py:27-31 | keys other than the three recognised ones are stored but never change the resolved parameters |
| `Params.NoQueryUsesEnvironment` | vpa-load-simulator/load_simulator.py:20-31 | without `?` every parameter comes from the environment or `"0"`; with no environment variables the load is all zero |
| `Params.NegativeValuesAccepted` | vpa-load-simulator/load_simulator.py:29 | a negative integer is accepted as it is, not rejected or clamped |
| `Handler.BallastElements` | vpa-load-simulator/load_simulator.py:50 | the ballast for `mb > 0` megabytes holds `mb * 131072` elements, that is `mb * 1024 * 1024` bytes at 8 bytes each |
| `Handler.Zeros` | vpa-load-simulator/load_simulator.py:50 | `[0] * n` has `n` elements, all zero |
| `Handler.Phases` | vpa-load-simulator/load_simulator.py:33-65 | at most three phase events, none of them the response or "Request processed" |
| `Handler.LoadTrace` | vpa-load-simulator/load_simulator.py:14-67 | a resolved request's trace: two to five events, starting with the response and ending with "Request processed" |
| `Handler.RequestTrace` | vpa-load-simulator/load_simulator.py:14-67 | a request's trace starts with the response and is the response alone exactly when resolution fails |
| `Handler.ResponseFirst` | vpa-load-simulator/load_simulator.py:14-17 | the 200 response is the first event of every request and is written once |
| `Handler.ProcessedLastIffResolved` | vpa-load-simulator/load_simulator.py:14-67 | "Request processed" is logged if and only if the parameters resolve, then as the last event; otherwise the response is the only event |
| `Handler.PhaseOrder` | vpa-load-simulator/load_simulator.py:33-67 | events strictly follow the order response, CPU, memory, delay, processed, each at most once |
| `Handler.PhaseGating` | vpa-load-simulator/load_simulator.py:33-65 | each phase happens if and only if its value is positive and carries that value; the memory phase carries a ballast of `mb * 1024 * 1024` bytes |
| `Handler.IdleRequest` | vpa-load-simulator/load_simulator.py:33-67 | with no positive value the trace is the response followed by "Request processed" |
| `Handler.LoadHandler.constructor` | vpa-load-simulator/load_simulator.py:12 | a new handler holds its path, an empty trace and no ballast |
| `Handler.LoadHandler.DoGet` | vpa-load-simulator/load_simulator.py:13-67 | the handler returns the resolution of its path, appends exactly `RequestTrace` to its trace, and holds a ballast of the computed size only when the memory phase ran |
| `Handler.LoadHandler.RunPhases` | vpa-load-simulator/load_simulator.py:33-67 | the phases append the gated CPU, memory and delay events then "Request processed", and set the ballast only for a positive memory value |

## Left out

- The HTTP transport, the `socketserver.TCPServer` accept loop, header and body writes, and the `argparse` start-up (lines 69-80): the response is recorded as one event with its status, content type and body.
- The CPU busy loop and its wall-clock check (lines 35-40): the CPU phase is one event carrying its seconds.
- `time.sleep` and Python's `float()` (lines 31, 64): floating point and blocking. `float()` is the caller-supplied `toFloat`. NaN and infinities have no `real` value, so the model cannot express `float('nan')` skipping the delay. `time.sleep` (line 64) also raises OverflowError for an infinite delay and for any finite delay of 2^63 nanoseconds or more (for example `delay_seconds=1e10`), and no `try` surrounds it, so such a request ends after the delay starts. The model records the `Delay` event and then "Request processed" for every positive delay, so `Handler.ProcessedLastIffResolved`, `Handler.LoadHandler.DoGet` and `Handler.LoadHandler.RunPhases` hold only for delays `time.sleep` accepts.
- The real allocation of the list, the caught `MemoryError` or `OverflowError`, and garbage collection (lines 46-57): the model always records the ballast, so a failed allocation is not represented.
- `Handler.BallastElements`: the model computes the exact integer quotient. Python divides in double precision, which gives the same count for `mb < 2^53`. Beyond that it may round, but such a list could not be allocated anyway.
- `PyInt.ParseInt`: `int()` also accepts non-ASCII decimal digits and non-ASCII whitespace, and in recent CPython releases it rejects texts of more than 4300 digits. The model accepts ASCII only and has no digit limit. Only an environment variable can carry such a text, since the request line is split on whitespace and holds no non-ASCII digits.
- `PyInt.IntRoundTrip`: because of the same ASCII-only, unlimited model of `int()`, the round trip is stated for every integer.
- Logging (every `logging.*` call): the phase events stand for the start and finish messages.
- Concurrency: `TCPServer` serves one request at a time and `threading` is imported but unused.
- What `socketserver` does with the escaping ValueError is outside the handler: it catches it, prints the traceback through `handle_error` and closes the connection through `shutdown_request`. The model returns the error as a `Failure`.
