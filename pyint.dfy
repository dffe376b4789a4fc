/**
 * Python's `int(text)` applied to a string, with the default base 10: surrounding
 * whitespace is stripped, an optional sign is accepted, and the digits may be
 * grouped by single underscores (`1_000`). Anything else raises ValueError,
 * which the model returns as `None`.
 */
module PyInt {
  import opened Wrappers

  predicate IsDigit(c: char) { '0' <= c <= '9' }

  /** The ASCII characters `int()` strips as whitespace: tab, line feed,
      vertical tab, form feed, carriage return and the space. */
  predicate IsSpace(c: char) { 9 <= c as int <= 13 || c == ' ' }

  function TrimStart(s: string): string
    decreases |s|
  {
    if s != [] && IsSpace(s[0]) then TrimStart(s[1..]) else s
  }

  function TrimEnd(s: string): string
    decreases |s|
  {
    if s != [] && IsSpace(s[|s| - 1]) then TrimEnd(s[..|s| - 1]) else s
  }

  function Strip(s: string): string { TrimEnd(TrimStart(s)) }

  /** A digit group as `int()` accepts it: non-empty, digits and underscores
      only, starting and ending with a digit, no two underscores in a row. */
  predicate ValidDigits(d: string)
  {
    && d != []
    && IsDigit(d[0])
    && IsDigit(d[|d| - 1])
    && (forall i :: 0 <= i < |d| ==> IsDigit(d[i]) || d[i] == '_')
    && (forall i :: 0 <= i < |d| - 1 ==> !(d[i] == '_' && d[i + 1] == '_'))
  }

  /** The decimal value of the digits of `d`, read left to right, underscores skipped. */
  function DigitsValue(d: string): nat
    decreases |d|
  {
    if d == [] then 0
    else
      var c := d[|d| - 1];
      if IsDigit(c) then DigitsValue(d[..|d| - 1]) * 10 + (c as int - '0' as int)
      else DigitsValue(d[..|d| - 1])
  }

  /** `int(text)`: `Some(n)` when Python returns `n`, `None` when it raises ValueError.
      An accepted text is, once stripped, a sign-led or bare digit group, and
      only a leading `-` gives a negative number. */
  function ParseInt(text: string): (r: Option<int>)
    ensures r.Some? ==> Strip(text) != [] && IsDigit(Strip(text)[|Strip(text)| - 1])
    ensures r.Some? ==> forall i :: 0 <= i < |Strip(text)| ==>
      IsDigit(Strip(text)[i]) || Strip(text)[i] == '_' || (i == 0 && Strip(text)[i] in "+-")
    ensures r.Some? && r.value < 0 ==> Strip(text)[0] == '-'
    ensures r.Some? ==> ValidDigits(if Strip(text)[0] in "+-" then Strip(text)[1..] else Strip(text))
  {
    var t := Strip(text);
    if t != [] && (t[0] == '-' || t[0] == '+') then
      if ValidDigits(t[1..]) then
        var magnitude: int := DigitsValue(t[1..]);
        Some(if t[0] == '-' then -magnitude else magnitude)
      else None
    else if ValidDigits(t) then Some(DigitsValue(t))
    else None
  }

  /** The decimal digits of `n`, most significant first, without leading zeros. */
  function FormatNat(n: nat): (d: string)
    ensures d != [] && forall i :: 0 <= i < |d| ==> IsDigit(d[i])
    decreases n
  {
    if n < 10 then [('0' as int + n) as char]
    else FormatNat(n / 10) + [('0' as int + n % 10) as char]
  }

  /** `str(n)`: the canonical decimal form of an integer. */
  function FormatInt(n: int): string
  {
    if n < 0 then "-" + FormatNat(-n) else FormatNat(n)
  }

  lemma {:induction false} DigitsValueFormat(n: nat)
    ensures DigitsValue(FormatNat(n)) == n
    decreases n
  {
    if n >= 10 {
      var d := FormatNat(n);
      DigitsValueFormat(n / 10);
      assert d[..|d| - 1] == FormatNat(n / 10);
    }
  }

  lemma StripUnchanged(s: string)
    requires s != [] && !IsSpace(s[0]) && !IsSpace(s[|s| - 1])
    ensures Strip(s) == s
  {
  }

  /** `int(str(n)) == n` for every integer, negative ones included. */
  lemma IntRoundTrip(n: int)
    ensures ParseInt(FormatInt(n)) == Some(n)
  {
    var t := FormatInt(n);
    StripUnchanged(t);
    if n < 0 {
      var d := FormatNat(-n);
      DigitsValueFormat(-n);
      assert t == "-" + d;
      NegativeDigits(t, d, -n);
    } else {
      var d := FormatNat(n);
      DigitsValueFormat(n);
      assert t == d;
      UnsignedDigits(t);
    }
  }

  lemma NegativeDigits(t: string, d: string, m: int)
    requires Strip(t) == t && t == "-" + d && m == DigitsValue(d)
    requires d != [] && forall i :: 0 <= i < |d| ==> IsDigit(d[i])
    ensures ParseInt(t) == Some(-m)
  {
    assert t[1..] == d;
    assert ValidDigits(d);
  }

  lemma UnsignedDigits(t: string)
    requires Strip(t) == t
    requires t != [] && forall i :: 0 <= i < |t| ==> IsDigit(t[i])
    ensures ParseInt(t) == Some(DigitsValue(t))
  {
    assert IsDigit(t[0]);
    assert ValidDigits(t);
  }

  /** Whitespace only (or nothing at all) is not a number. */
  lemma {:induction false} BlankIsNotInt(text: string)
    requires forall i :: 0 <= i < |text| ==> IsSpace(text[i])
    ensures ParseInt(text) == None
  {
    TrimStartBlank(text);
  }

  lemma {:induction false} TrimStartBlank(s: string)
    requires forall i :: 0 <= i < |s| ==> IsSpace(s[i])
    ensures TrimStart(s) == []
    decreases |s|
  {
    if s != [] {
      TrimStartBlank(s[1..]);
    }
  }

  /** Every character of a trimmed string comes from the original. */
  lemma {:induction false} TrimStartChars(s: string)
    ensures forall c :: c in TrimStart(s) ==> c in s
    ensures forall c :: c in s && !IsSpace(c) ==> c in TrimStart(s)
    decreases |s|
  {
    if s != [] && IsSpace(s[0]) {
      TrimStartChars(s[1..]);
      assert s == [s[0]] + s[1..];
    }
  }

  lemma {:induction false} TrimEndChars(s: string)
    ensures forall c :: c in TrimEnd(s) ==> c in s
    ensures forall c :: c in s && !IsSpace(c) ==> c in TrimEnd(s)
    decreases |s|
  {
    if s != [] && IsSpace(s[|s| - 1]) {
      TrimEndChars(s[..|s| - 1]);
      assert s == s[..|s| - 1] + [s[|s| - 1]];
    }
  }

  /** A character that is neither a digit, a sign, an underscore nor whitespace
      makes `int()` fail: a malformed value is never read as some number. */
  lemma ForeignCharIsNotInt(text: string, c: char)
    requires c in text
    requires !IsDigit(c) && !IsSpace(c) && c != '-' && c != '+' && c != '_'
    ensures ParseInt(text) == None
  {
    TrimStartChars(text);
    TrimEndChars(TrimStart(text));
    var t := Strip(text);
    assert c in t;
    var i :| 0 <= i < |t| && t[i] == c;
    if t != [] && (t[0] == '-' || t[0] == '+') {
      assert i > 0 && t[1..][i - 1] == c;
    }
  }
}
