/**
 * The query-string parser at the top of `LoadHandler.do_GET`: the request path
 * is split on `?`, the second piece is split on `&`, and every segment holding
 * `=` is unpacked into a key and a value that are written into a dictionary.
 * Unpacking `segment.split('=')` into exactly two names raises ValueError when
 * the segment holds two or more `=`.
 */
module Query {
  import opened Wrappers
  import opened Text

  /** The ValueError raised by `key, value = segment.split('=')`. */
  datatype QueryError = TooManyEquals(segment: string)

  /** The `&`-separated segments of the text between the first and the second
      `?` of `path`; none when `path` has no `?`. */
  function Segments(path: string): (segs: seq<string>)
    ensures '?' !in path ==> segs == []
    ensures forall i :: 0 <= i < |segs| ==> '&' !in segs[i]
  {
    var parts := Split(path, '?');
    assert '?' !in path ==> parts == [path] by {
      if '?' !in path { SplitNoSep(path, '?'); }
    }
    if |parts| > 1 then Split(parts[1], '&') else []
  }

  /** One pass of the loop body: a segment without `=` is skipped, one with a
      single `=` is stored under its key, one with more fails to unpack. */
  function Bind(params: map<string, string>, segment: string): (r: Result<map<string, string>, QueryError>)
    ensures r.Success? ==> params.Keys <= r.value.Keys
    ensures r.Failure? ==> r.error == TooManyEquals(segment) && Count(segment, '=') >= 2
  {
    SplitLength(segment, '=');
    CountZero(segment, '=');
    if '=' !in segment then Success(params)
    else
      var kv := Split(segment, '=');
      if |kv| == 2 then Success(params[kv[0] := kv[1]])
      else Failure(TooManyEquals(segment))
  }

  /** The dictionary after the loop has visited every segment of `segs`, or the
      error raised by the first segment that fails. */
  function BindAll(segs: seq<string>): (r: Result<map<string, string>, QueryError>)
    ensures r.Failure? ==> exists i :: 0 <= i < |segs| && r.error == TooManyEquals(segs[i]) && Count(segs[i], '=') >= 2
    decreases |segs|
  {
    if segs == [] then Success(map[])
    else
      match BindAll(segs[..|segs| - 1])
      case Failure(e) => Failure(e)
      case Success(m) => Bind(m, segs[|segs| - 1])
  }

  /** The parameter dictionary the handler builds from `path`. */
  function QueryParams(path: string): (r: Result<map<string, string>, QueryError>)
    ensures '?' !in path ==> r == Success(map[])
    ensures r.Failure? ==> exists i :: 0 <= i < |Segments(path)| && r.error == TooManyEquals(Segments(path)[i])
  {
    BindAll(Segments(path))
  }

  /** Once a prefix of the segments has failed, the whole loop fails with that error. */
  lemma {:induction false} FailureSticks(segs: seq<string>, i: nat, e: QueryError)
    requires i <= |segs|
    requires BindAll(segs[..i]) == Failure(e)
    ensures BindAll(segs) == Failure(e)
    decreases |segs| - i
  {
    if i < |segs| {
      assert segs[..i + 1][..i] == segs[..i];
      FailureSticks(segs, i + 1, e);
    } else {
      assert segs[..i] == segs;
    }
  }

  /** Lines 20-27 as the handler runs them: a loop over the segments that
      updates the dictionary in place. */
  method ParseQuery(path: string) returns (r: Result<map<string, string>, QueryError>)
    ensures r == QueryParams(path)
  {
    var parsedPath := Split(path, '?');
    var params: map<string, string> := map[];
    if |parsedPath| > 1 {
      var queryString := parsedPath[1];
      var segments := Split(queryString, '&');
      var i := 0;
      while i < |segments|
        invariant 0 <= i <= |segments|
        invariant BindAll(segments[..i]) == Success(params)
      {
        var param := segments[i];
        assert segments[..i + 1][..i] == segments[..i];
        if '=' in param {
          var kv := Split(param, '=');
          if |kv| != 2 {
            FailureSticks(segments, i + 1, TooManyEquals(param));
            return Failure(TooManyEquals(param));
          }
          params := params[kv[0] := kv[1]];
        }
        i := i + 1;
      }
      assert segments[..i] == segments;
    }
    return Success(params);
  }

  /** `segment` is `key=value` with a single `=`. */
  predicate Binds(segment: string, key: string, value: string)
  {
    segment == key + ['='] + value && '=' !in key && '=' !in value
  }

  /** `segment` begins with `key=`. */
  predicate StartsWithKey(segment: string, key: string)
  {
    |segment| > |key| && segment[..|key| + 1] == key + ['=']
  }

  /** A segment with a single `=` stores its value under its key. */
  lemma BindOneEquals(params: map<string, string>, segment: string, key: string, value: string)
    requires Binds(segment, key, value)
    ensures Bind(params, segment) == Success(params[key := value])
  {
    SplitConcat(key, '=', value);
    SplitNoSep(value, '=');
  }

  /** Unpacking succeeds exactly when the segment holds at most one `=`, and a
      success stores the text after the `=` under the text before it. */
  lemma BindSucceedsIff(params: map<string, string>, segment: string)
    ensures Bind(params, segment).Success? <==> Count(segment, '=') <= 1
    ensures Count(segment, '=') == 0 ==> Bind(params, segment) == Success(params)
    ensures Count(segment, '=') == 1 ==>
      exists key, value :: Binds(segment, key, value) && Bind(params, segment) == Success(params[key := value])
  {
    SplitLength(segment, '=');
    CountZero(segment, '=');
    if Count(segment, '=') == 1 {
      var kv := Split(segment, '=');
      JoinSplit(segment, '=');
      assert kv[1..] == [kv[1]];
      assert Binds(segment, kv[0], kv[1]);
    }
  }

  /** With no `?` in the path there are no query parameters. */
  lemma NoQueryNoParams(path: string)
    requires '?' !in path
    ensures QueryParams(path) == Success(map[])
  {
  }

  /** Only the text between the first and the second `?` is parsed: whatever
      follows a second `?` is ignored. */
  lemma TextAfterSecondMarkIgnored(prefix: string, query: string, rest: string)
    requires '?' !in prefix && '?' !in query
    ensures QueryParams(prefix + ['?'] + query + ['?'] + rest) == QueryParams(prefix + ['?'] + query)
    ensures QueryParams(prefix + ['?'] + query) == BindAll(Split(query, '&'))
  {
    SplitAtTwoMarks(prefix, query, rest);
    SplitAtOneMark(prefix, query);
  }

  lemma SplitAtTwoMarks(prefix: string, query: string, rest: string)
    requires '?' !in prefix && '?' !in query
    ensures Split(prefix + ['?'] + query + ['?'] + rest, '?') == [prefix, query] + Split(rest, '?')
  {
    assert prefix + ['?'] + query + ['?'] + rest == prefix + ['?'] + (query + ['?'] + rest);
    SplitConcat(prefix, '?', query + ['?'] + rest);
    SplitConcat(query, '?', rest);
  }

  lemma SplitAtOneMark(prefix: string, query: string)
    requires '?' !in prefix && '?' !in query
    ensures Split(prefix + ['?'] + query, '?') == [prefix, query]
  {
    SplitConcat(prefix, '?', query);
    SplitNoSep(query, '?');
  }

  /** The loop fails exactly when some segment holds two or more `=`, and then
      with the error of the first such segment. */
  lemma {:induction false} BindAllFailsIff(segs: seq<string>)
    ensures BindAll(segs).Failure? <==> exists i :: 0 <= i < |segs| && Count(segs[i], '=') >= 2
    ensures BindAll(segs).Failure? ==>
      exists i :: 0 <= i < |segs| && BindAll(segs).error == TooManyEquals(segs[i]) && Count(segs[i], '=') >= 2
        && forall j :: 0 <= j < i ==> Count(segs[j], '=') <= 1
    decreases |segs|
  {
    if segs != [] {
      var init := segs[..|segs| - 1];
      var last := segs[|segs| - 1];
      BindAllFailsIff(init);
      assert forall i :: 0 <= i < |init| ==> init[i] == segs[i];
      match BindAll(init)
      case Failure(e) =>
      case Success(m) =>
        BindSucceedsIff(m, last);
        if Bind(m, last).Failure? {
          assert BindAll(segs).error == TooManyEquals(segs[|segs| - 1]);
        }
    }
  }

  /** Last occurrence wins: a key bound by a segment that no later segment
      rebinds holds that segment's value. */
  lemma {:induction false} LastOccurrenceWins(segs: seq<string>, params: map<string, string>, j: nat, key: string, value: string)
    requires BindAll(segs) == Success(params)
    requires j < |segs| && Binds(segs[j], key, value)
    requires forall k :: j < k < |segs| ==> !StartsWithKey(segs[k], key)
    ensures key in params && params[key] == value
    decreases |segs|
  {
    var init := segs[..|segs| - 1];
    var last := segs[|segs| - 1];
    var m :| BindAll(init) == Success(m) && Bind(m, last) == Success(params);
    if j == |segs| - 1 {
      BindOneEquals(m, last, key, value);
    } else {
      assert init[j] == segs[j];
      LastOccurrenceWins(init, m, j, key, value);
      if '=' in last {
        var kv := Split(last, '=');
        JoinSplit(last, '=');
        assert kv[1..] == [kv[1]];
        assert last == kv[0] + ['='] + kv[1];
      }
    }
  }

  /** Every stored key comes from a segment `key=value` with a single `=`, so
      nothing but such segments reaches the dictionary. */
  lemma {:induction false} OnlyBoundKeys(segs: seq<string>, params: map<string, string>, key: string)
    requires BindAll(segs) == Success(params)
    requires key in params
    ensures exists j :: 0 <= j < |segs| && Binds(segs[j], key, params[key])
    decreases |segs|
  {
    var init := segs[..|segs| - 1];
    var last := segs[|segs| - 1];
    var m :| BindAll(init) == Success(m) && Bind(m, last) == Success(params);
    var kv := Split(last, '=');
    if '=' in last && kv[0] == key {
      JoinSplit(last, '=');
      assert kv[1..] == [kv[1]];
      assert Binds(segs[|segs| - 1], key, params[key]);
    } else {
      OnlyBoundKeys(init, m, key);
      var j :| 0 <= j < |init| && Binds(init[j], key, m[key]);
      assert segs[j] == init[j];
    }
  }

  /** Segments without `=` can be dropped without changing the dictionary. */
  function WithEquals(segs: seq<string>): (kept: seq<string>)
    ensures forall i :: 0 <= i < |kept| ==> '=' in kept[i]
    ensures |kept| <= |segs|
    decreases |segs|
  {
    if segs == [] then []
    else
      var init := WithEquals(segs[..|segs| - 1]);
      if '=' in segs[|segs| - 1] then init + [segs[|segs| - 1]] else init
  }

  lemma {:induction false} BareSegmentsSkipped(segs: seq<string>)
    ensures BindAll(WithEquals(segs)) == BindAll(segs)
    decreases |segs|
  {
    if segs != [] {
      var init := segs[..|segs| - 1];
      var last := segs[|segs| - 1];
      BareSegmentsSkipped(init);
      if '=' in last {
        var kept := WithEquals(init) + [last];
        assert kept[..|kept| - 1] == WithEquals(init);
      }
    }
  }

  lemma BindTwice(key: string, first: string, second: string)
    requires '=' !in key && '=' !in first && '=' !in second
    ensures BindAll([key + ['='] + first, key + ['='] + second]) == Success(map[key := second])
  {
    var segs := [key + ['='] + first, key + ['='] + second];
    BindOneEquals(map[], segs[0], key, first);
    BindOneEquals(map[key := first], segs[1], key, second);
    assert segs[..1][..0] == [];
    assert segs[..1] == [segs[0]];
    assert BindAll(segs[..1]) == Success(map[key := first]);
    assert BindAll(segs) == Bind(map[key := first], segs[1]);
    assert map[key := first][key := second] == map[key := second];
  }

  /** A key given twice keeps its later value: `?k=1&k=5` stores `k` as `5`. */
  lemma DuplicateKeyLastWins(prefix: string, key: string, first: string, second: string)
    requires '?' !in prefix
    requires '?' !in key && '&' !in key && '=' !in key
    requires '?' !in first && '&' !in first && '=' !in first
    requires '?' !in second && '&' !in second && '=' !in second
    ensures QueryParams(prefix + ['?'] + key + ['='] + first + ['&'] + key + ['='] + second)
      == Success(map[key := second])
  {
    var seg1 := key + ['='] + first;
    var seg2 := key + ['='] + second;
    var query := seg1 + ['&'] + seg2;
    assert prefix + ['?'] + key + ['='] + first + ['&'] + key + ['='] + second == prefix + ['?'] + query;
    assert '?' !in query;
    TextAfterSecondMarkIgnored(prefix, query, []);
    assert Split(query, '&') == [seg1, seg2] by {
      SplitConcat(seg1, '&', seg2);
      SplitNoSep(seg2, '&');
    }
    BindTwice(key, first, second);
  }
}
