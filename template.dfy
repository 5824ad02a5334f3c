/**
 * The skill-description renderer (serve.py:60, 87-157): numeric parameters
 * are read from a JSON list, and every `#<n>[<fmt>]%` token of a description
 * is replaced, left to right, by the n-th parameter in the requested format.
 *
 * `json.loads` and `float(str)` are parameters (`loads`, `parseFloat`); a
 * Python float is an exact real.
 */
module ParamTemplate {
  import opened Common
  import opened NumberFormat

  // ---------------------------------------------------------------------
  // Parameter values
  // ---------------------------------------------------------------------

  /**
   * The number one list element stands for: its `Value` member when it is an
   * object, else itself; numbers (booleans included, as Python counts them as
   * ints) are taken as they are, strings when `float()` accepts them.
   */
  function ItemValue(item: Json, parseFloat: string -> Option<real>): Option<real>
  {
    var src := if item.Obj? then Get(item, "Value") else item;
    if src.Int? then Some(src.i as real)
    else if src.Bool? then Some(if src.b then 1.0 else 0.0)
    else if src.Real? then Some(src.r)
    else if src.Str? then parseFloat(src.s)
    else None
  }

  /** The values of the elements that have one, in order. */
  function ItemValues(items: seq<Json>, parseFloat: string -> Option<real>): (vals: seq<real>)
    ensures |vals| <= |items|
  {
    if items == [] then []
    else
      var v := ItemValue(items[|items| - 1], parseFloat);
      ItemValues(items[..|items| - 1], parseFloat) + (if v.Some? then [v.value] else [])
  }

  /** The list the parameters come from: the value itself, or what `json.loads` makes of a string. */
  function ParamList(raw: Json, loads: string -> Option<Json>): Option<seq<Json>>
  {
    if raw.Null? then None
    else
      var data := if raw.Str? then loads(raw.s) else Some(raw);
      if data.Some? && data.value.Arr? then Some(data.value.items) else None
  }

  /** What `parse_param_values(raw)` returns. */
  function ParamValues(raw: Json, loads: string -> Option<Json>, parseFloat: string -> Option<real>): seq<real>
  {
    match ParamList(raw, loads)
    case None => []
    case Some(items) => ItemValues(items, parseFloat)
  }

  /** `parse_param_values(raw)` (serve.py:87-110). */
  method ParseParamValues(raw: Json, loads: string -> Option<Json>, parseFloat: string -> Option<real>) returns (vals: seq<real>)
    ensures vals == ParamValues(raw, loads, parseFloat)
  {
    if raw.Null? {
      return [];
    }
    var data := raw;
    if raw.Str? {
      match loads(raw.s)
      case None =>
        return [];
      case Some(d) =>
        data := d;
    }
    if !data.Arr? {
      return [];
    }
    var items := data.items;
    vals := [];
    for i := 0 to |items|
      invariant vals == ItemValues(items[..i], parseFloat)
    {
      assert items[..i + 1][..i] == items[..i];
      var item := items[i];
      var src := if item.Obj? then Get(item, "Value") else item;
      if src.Int? || src.Bool? || src.Real? {
        vals := vals + [if src.Int? then src.i as real else if src.Bool? then (if src.b then 1.0 else 0.0) else src.r];
        continue;
      }
      if src.Str? {
        match parseFloat(src.s)
        case Some(v) =>
          vals := vals + [v];
        case None =>
      }
    }
    assert items[..|items|] == items;
  }

  /** No parameters come from a missing value, a string `json.loads` rejects, or anything that is not a list. */
  lemma ParamValuesEmpty(raw: Json, loads: string -> Option<Json>, parseFloat: string -> Option<real>)
    ensures raw.Null? ==> ParamValues(raw, loads, parseFloat) == []
    ensures raw.Str? && loads(raw.s).None? ==> ParamValues(raw, loads, parseFloat) == []
    ensures raw.Str? && loads(raw.s).Some? && !loads(raw.s).value.Arr? ==> ParamValues(raw, loads, parseFloat) == []
    ensures !raw.Str? && !raw.Arr? ==> ParamValues(raw, loads, parseFloat) == []
  {
  }

  /** When every element has a value, the parameters are those values, one per element, in order. */
  lemma {:induction false} ItemValuesAll(items: seq<Json>, parseFloat: string -> Option<real>)
    requires forall i :: 0 <= i < |items| ==> ItemValue(items[i], parseFloat).Some?
    ensures |ItemValues(items, parseFloat)| == |items|
    ensures forall i :: 0 <= i < |items| ==> ItemValues(items, parseFloat)[i] == ItemValue(items[i], parseFloat).value
  {
    if items != [] {
      ItemValuesAll(items[..|items| - 1], parseFloat);
    }
  }

  /** Every parameter is the value of some element, and elements without a value contribute nothing. */
  lemma {:induction false} ItemValuesFrom(items: seq<Json>, parseFloat: string -> Option<real>)
    ensures forall v :: v in ItemValues(items, parseFloat) ==> exists i :: 0 <= i < |items| && ItemValue(items[i], parseFloat) == Some(v)
    ensures (forall i :: 0 <= i < |items| ==> ItemValue(items[i], parseFloat).None?) ==> ItemValues(items, parseFloat) == []
  {
    if items != [] {
      var init := items[..|items| - 1];
      ItemValuesFrom(init, parseFloat);
      forall v | v in ItemValues(items, parseFloat)
        ensures exists i :: 0 <= i < |items| && ItemValue(items[i], parseFloat) == Some(v)
      {
        if v in ItemValues(init, parseFloat) {
          var i :| 0 <= i < |init| && ItemValue(init[i], parseFloat) == Some(v);
          assert items[i] == init[i];
        } else {
          assert ItemValue(items[|items| - 1], parseFloat) == Some(v);
        }
      }
      if forall i :: 0 <= i < |items| ==> ItemValue(items[i], parseFloat).None? {
        assert forall i :: 0 <= i < |init| ==> init[i] == items[i];
      }
    }
  }

  // ---------------------------------------------------------------------
  // Tokens of a description
  // ---------------------------------------------------------------------

  /**
   * A description, read as `SKILL_PARAM_RE.sub` reads it: single characters
   * outside any match, and matches `#<digits>`, an optional `[<fmt>]` with a
   * non-empty format free of `]`, and an optional `%`.
   */
  datatype Token =
    | Lit(c: char)
    | Param(digits: string, fmt: Option<string>, percent: bool)

  /** The text a token was read from (`match.group(0)` for a parameter). */
  function TokenText(t: Token): string
  {
    match t
    case Lit(c) => [c]
    case Param(digits, fmt, percent) =>
      "#" + digits + (if fmt.Some? then "[" + fmt.value + "]" else "") + (if percent then "%" else "")
  }

  function Unparse(ts: seq<Token>): string
  {
    if ts == [] then "" else TokenText(ts[0]) + Unparse(ts[1..])
  }

  /** Number of consecutive digits of `s` from position `i`. */
  function DigitRun(s: string, i: nat): (n: nat)
    requires i <= |s|
    ensures i + n <= |s|
    ensures forall k :: i <= k < i + n ==> IsDigit(s[k])
    ensures i + n < |s| ==> !IsDigit(s[i + n])
    decreases |s| - i
  {
    if i < |s| && IsDigit(s[i]) then 1 + DigitRun(s, i + 1) else 0
  }

  /** Number of consecutive characters other than `]` of `s` from position `i`. */
  function BracketRun(s: string, i: nat): (n: nat)
    requires i <= |s|
    ensures i + n <= |s|
    ensures forall k :: i <= k < i + n ==> s[k] != ']'
    ensures i + n < |s| ==> s[i + n] == ']'
    decreases |s| - i
  {
    if i < |s| && s[i] != ']' then 1 + BracketRun(s, i + 1) else 0
  }

  /** A well-formed parameter token: at least one digit, and a non-empty format without `]`. */
  predicate WellFormed(t: Token)
  {
    t.Param? ==> AllDigits(t.digits) && (t.fmt.Some? ==> t.fmt.value != [] && ']' !in t.fmt.value)
  }

  /** Where the parts of a match starting at `i` end: the digits, the optional `[fmt]`, the optional `%`. */
  function DigitsEnd(s: string, i: nat): (k: nat)
    requires i + 1 < |s|
    ensures i + 1 <= k <= |s|
  {
    i + 1 + DigitRun(s, i + 1)
  }

  predicate HasFormat(s: string, k: nat)
    requires k <= |s|
  {
    k < |s| && s[k] == '[' && BracketRun(s, k + 1) > 0 && k + 1 + BracketRun(s, k + 1) < |s|
  }

  function FormatEnd(s: string, k: nat): (k2: nat)
    requires k <= |s|
    ensures k <= k2 <= |s|
  {
    if HasFormat(s, k) then k + 2 + BracketRun(s, k + 1) else k
  }

  /** The match of the pattern at position `i` and where it ends; none unless a digit follows `#`. */
  function MatchAt(s: string, i: nat): (r: Option<(Token, nat)>)
    requires i < |s|
    ensures r.Some? ==> i < r.value.1 <= |s| && r.value.0.Param? && WellFormed(r.value.0)
    ensures r.Some? <==> s[i] == '#' && i + 1 < |s| && IsDigit(s[i + 1])
  {
    if s[i] == '#' && i + 1 < |s| && IsDigit(s[i + 1]) then
      var k := DigitsEnd(s, i);
      var k2 := FormatEnd(s, k);
      var percent := k2 < |s| && s[k2] == '%';
      var fmt := if HasFormat(s, k) then Some(s[k + 1..k2 - 1]) else None;
      Some((Param(s[i + 1..k], fmt, percent), if percent then k2 + 1 else k2))
    else None
  }

  /** A match covers exactly the text its token writes back. */
  lemma MatchAtText(s: string, i: nat)
    requires i < |s| && MatchAt(s, i).Some?
    ensures TokenText(MatchAt(s, i).value.0) == s[i..MatchAt(s, i).value.1]
  {
    var k := DigitsEnd(s, i);
    var k2 := FormatEnd(s, k);
    var t := MatchAt(s, i).value.0;
    var j := MatchAt(s, i).value.1;
    assert s[i..k] == "#" + s[i + 1..k];
    if HasFormat(s, k) {
      FormatText(s, k);
    }
    assert s[i..k2] == s[i..k] + s[k..k2];
    if t.percent {
      assert s[i..j] == s[i..k2] + "%";
    }
  }

  lemma FormatText(s: string, k: nat)
    requires k <= |s| && HasFormat(s, k)
    ensures var k2 := FormatEnd(s, k); s[k..k2] == "[" + s[k + 1..k2 - 1] + "]"
  {
    var k2 := FormatEnd(s, k);
    assert s[k] == '[' && s[k2 - 1] == ']';
    assert s[k..k2] == [s[k]] + s[k + 1..k2 - 1] + [s[k2 - 1]];
  }

  /** The tokens of `s[i..]`, scanning left to right as `re.sub` does. */
  function TokenizeFrom(s: string, i: nat): (ts: seq<Token>)
    requires i <= |s|
    ensures forall k :: 0 <= k < |ts| ==> WellFormed(ts[k])
    decreases |s| - i
  {
    if i == |s| then []
    else
      match MatchAt(s, i)
      case Some(m) => [m.0] + TokenizeFrom(s, m.1)
      case None => [Lit(s[i])] + TokenizeFrom(s, i + 1)
  }

  function Tokenize(s: string): seq<Token>
  {
    TokenizeFrom(s, 0)
  }

  /** Reading a description into tokens loses nothing: writing the tokens back gives the description. */
  lemma {:induction false} TokenizeFromRoundTrip(s: string, i: nat)
    requires i <= |s|
    ensures Unparse(TokenizeFrom(s, i)) == s[i..]
    decreases |s| - i
  {
    if i < |s| {
      match MatchAt(s, i)
      case Some(m) =>
        TokenizeFromRoundTrip(s, m.1);
        RoundTripAfterMatch(s, i);
      case None =>
        TokenizeFromRoundTrip(s, i + 1);
        RoundTripAfterLiteral(s, i);
    }
  }

  lemma RoundTripAfterMatch(s: string, i: nat)
    requires i < |s| && MatchAt(s, i).Some?
    requires var j := MatchAt(s, i).value.1; Unparse(TokenizeFrom(s, j)) == s[j..]
    ensures Unparse(TokenizeFrom(s, i)) == s[i..]
  {
    var m := MatchAt(s, i).value;
    var rest := TokenizeFrom(s, m.1);
    assert TokenizeFrom(s, i) == [m.0] + rest;
    MatchAtText(s, i);
    UnparseCons(m.0, rest);
    SliceSplit(s, i, m.1);
  }

  lemma SliceSplit(s: string, i: nat, j: nat)
    requires i <= j <= |s|
    ensures s[i..] == s[i..j] + s[j..]
  {
  }

  lemma RoundTripAfterLiteral(s: string, i: nat)
    requires i < |s| && MatchAt(s, i).None?
    requires Unparse(TokenizeFrom(s, i + 1)) == s[i + 1..]
    ensures Unparse(TokenizeFrom(s, i)) == s[i..]
  {
    assert TokenizeFrom(s, i) == [Lit(s[i])] + TokenizeFrom(s, i + 1);
    UnparseCons(Lit(s[i]), TokenizeFrom(s, i + 1));
    assert s[i..] == [s[i]] + s[i + 1..];
  }

  lemma UnparseCons(t: Token, ts: seq<Token>)
    ensures Unparse([t] + ts) == TokenText(t) + Unparse(ts)
  {
    assert ([t] + ts)[1..] == ts;
  }

  lemma TokenizeRoundTrip(s: string)
    ensures Unparse(Tokenize(s)) == s
  {
    TokenizeFromRoundTrip(s, 0);
  }

  /** No literal `#` is followed by a literal digit. */
  predicate HashesUnfollowed(ts: seq<Token>)
  {
    forall k :: 0 <= k < |ts| && ts[k] == Lit('#') ==> k + 1 == |ts| || !(ts[k + 1].Lit? && IsDigit(ts[k + 1].c))
  }

  /** Every match is found: a `#` left as a literal is never followed by a digit (it would have started a match). */
  lemma {:induction false} TokenizeFromComplete(s: string, i: nat)
    requires i <= |s|
    ensures HashesUnfollowed(TokenizeFrom(s, i))
    decreases |s| - i
  {
    if i < |s| {
      match MatchAt(s, i)
      case Some(m) =>
        TokenizeFromComplete(s, m.1);
        assert TokenizeFrom(s, i) == [m.0] + TokenizeFrom(s, m.1);
        HashesUnfollowedCons(m.0, TokenizeFrom(s, m.1));
      case None =>
        TokenizeFromComplete(s, i + 1);
        var rest := TokenizeFrom(s, i + 1);
        assert TokenizeFrom(s, i) == [Lit(s[i])] + rest;
        if s[i] == '#' && rest != [] {
          FirstTokenChar(s, i + 1);
        }
        HashesUnfollowedCons(Lit(s[i]), rest);
    }
  }

  lemma HashesUnfollowedCons(t: Token, ts: seq<Token>)
    requires HashesUnfollowed(ts)
    requires t == Lit('#') && ts != [] ==> !(ts[0].Lit? && IsDigit(ts[0].c))
    ensures HashesUnfollowed([t] + ts)
  {
    var r := [t] + ts;
    forall k | 0 <= k < |r| && r[k] == Lit('#') && k + 1 < |r|
      ensures !(r[k + 1].Lit? && IsDigit(r[k + 1].c))
    {
      if k > 0 {
        assert r[k] == ts[k - 1] && r[k + 1] == ts[k];
      }
    }
  }

  lemma TokenizeComplete(s: string)
    ensures HashesUnfollowed(Tokenize(s))
  {
    TokenizeFromComplete(s, 0);
  }

  /** The token read at a position starts with the character there. */
  lemma FirstTokenChar(s: string, i: nat)
    requires i < |s|
    ensures TokenizeFrom(s, i) != [] && (TokenizeFrom(s, i)[0].Lit? ==> TokenizeFrom(s, i)[0].c == s[i])
  {
  }

  // ---------------------------------------------------------------------
  // Rendering
  // ---------------------------------------------------------------------

  /** `(match.group(2) or "").strip().lower()` */
  function FormatSpec(fmt: Option<string>): string
  {
    Lower(Strip(GetOr(fmt, "")))
  }

  /** `int(re.match(r"f(\d+)", fmt).group(1))`, or 0 when no digit follows the `f`. */
  function FDecimals(f: string): nat
    requires StartsWith(f, "f")
  {
    var n := DigitRun(f, 1);
    if n == 0 then 0 else DigitsValue(f[1..1 + n])
  }

  /** One value in a format: `i` rounds to an integer, `f<N>` prints N decimals untrimmed, anything else is natural. */
  function RenderValue(value: real, f: string): string
  {
    if StartsWith(f, "i") then IntToDecimal(RoundHalfEven(value))
    else if StartsWith(f, "f") then FormatNum(value, Some(FDecimals(f)), false)
    else FormatNum(value, None, true)
  }

  /** `int(match.group(1)) - 1` */
  function ParamIndex(t: Token): int
    requires t.Param? && WellFormed(t)
  {
    DigitsValue(t.digits) - 1
  }

  predicate InRange(t: Token, params: seq<real>)
    requires t.Param? && WellFormed(t)
  {
    0 <= ParamIndex(t) < |params|
  }

  /** `repl(match)` for a parameter token; a literal character stands for itself. */
  function RenderToken(t: Token, params: seq<real>): string
    requires WellFormed(t)
  {
    match t
    case Lit(c) => [c]
    case Param(digits, fmt, percent) =>
      if !InRange(t, params) then TokenText(t)
      else
        var p := params[ParamIndex(t)];
        var value := if percent then p * 100.0 else p;
        RenderValue(value, FormatSpec(fmt)) + (if percent then "%" else "")
  }

  function Render(ts: seq<Token>, params: seq<real>): string
    requires forall k :: 0 <= k < |ts| ==> WellFormed(ts[k])
  {
    if ts == [] then "" else RenderToken(ts[0], params) + Render(ts[1..], params)
  }

  /** `apply_param_template(template, raw_params)` (serve.py:132-157). */
  function ApplyParamTemplate(template: Option<string>, rawParams: Json, loads: string -> Option<Json>, parseFloat: string -> Option<real>): Option<string>
  {
    if template.None? then None
    else
      var params := ParamValues(rawParams, loads, parseFloat);
      if params == [] then template
      else Some(Render(Tokenize(template.value), params))
  }

  /** No template gives no text; a template with no usable parameter comes back unchanged. */
  lemma ApplyWithoutParams(template: Option<string>, rawParams: Json, loads: string -> Option<Json>, parseFloat: string -> Option<real>)
    ensures template.None? ==> ApplyParamTemplate(template, rawParams, loads, parseFloat) == None
    ensures ParamValues(rawParams, loads, parseFloat) == [] ==> ApplyParamTemplate(template, rawParams, loads, parseFloat) == template
  {
  }

  /** Tokens with no parameter in range render as the text they were read from. */
  lemma {:induction false} RenderOutOfRange(ts: seq<Token>, params: seq<real>)
    requires forall k :: 0 <= k < |ts| ==> WellFormed(ts[k])
    requires forall k :: 0 <= k < |ts| && ts[k].Param? ==> !InRange(ts[k], params)
    ensures Render(ts, params) == Unparse(ts)
  {
    if ts != [] {
      RenderOutOfRange(ts[1..], params);
    }
  }

  /** Rendering is piecewise: the rendering of a concatenation is the concatenation of the renderings, so literal text is copied in place. */
  lemma {:induction false} RenderAppend(a: seq<Token>, b: seq<Token>, params: seq<real>)
    requires forall k :: 0 <= k < |a| ==> WellFormed(a[k])
    requires forall k :: 0 <= k < |b| ==> WellFormed(b[k])
    ensures forall k :: 0 <= k < |a + b| ==> WellFormed((a + b)[k])
    ensures Render(a + b, params) == Render(a, params) + Render(b, params)
  {
    if a != [] {
      assert (a + b)[1..] == a[1..] + b;
      RenderAppend(a[1..], b, params);
    } else {
      assert a + b == b;
    }
  }

  /**
   * A description whose every token is out of range for the parameters,
   * including one with no `#<digit>` at all, comes back unchanged.
   */
  lemma ApplyOutOfRange(template: string, rawParams: Json, loads: string -> Option<Json>, parseFloat: string -> Option<real>)
    requires var ts := Tokenize(template);
             forall k :: 0 <= k < |ts| && ts[k].Param? && WellFormed(ts[k]) ==> !InRange(ts[k], ParamValues(rawParams, loads, parseFloat))
    ensures ApplyParamTemplate(Some(template), rawParams, loads, parseFloat) == Some(template)
  {
    var params := ParamValues(rawParams, loads, parseFloat);
    if params != [] {
      RenderOutOfRange(Tokenize(template), params);
      TokenizeRoundTrip(template);
    }
  }

  /** An index of 0 or beyond the parameter count leaves the token verbatim. */
  lemma TokenOutOfRange(t: Token, params: seq<real>)
    requires t.Param? && WellFormed(t)
    requires DigitsValue(t.digits) == 0 || DigitsValue(t.digits) > |params|
    ensures RenderToken(t, params) == TokenText(t)
  {
  }

  /**
   * An in-range token renders its parameter, times 100 and followed by a
   * percent sign when it has `%`: with `i` as the nearest integer's numeral,
   * with `f<N>` in fixed point, otherwise naturally (no point for an integral value).
   */
  lemma RenderTokenInRange(t: Token, params: seq<real>)
    requires t.Param? && WellFormed(t) && InRange(t, params)
    ensures var p := params[ParamIndex(t)];
            var v := if t.percent then p * 100.0 else p;
            var f := FormatSpec(t.fmt);
            var suffix := if t.percent then "%" else "";
            var s := RenderToken(t, params);
            |s| >= |suffix| && s[|s| - |suffix|..] == suffix &&
            var body := s[..|s| - |suffix|];
            && (StartsWith(f, "i") ==> body == IntToDecimal(RoundHalfEven(v)) && IsIntegerNumeral(body))
            && (!StartsWith(f, "i") && StartsWith(f, "f") ==>
                  body == FixedPoint(v, FDecimals(f)) && (FDecimals(f) == 0 ==> '.' !in body))
            && (!StartsWith(f, "i") && !StartsWith(f, "f") && IsIntegral(v) ==> IsIntegerNumeral(body) && '.' !in body)
  {
    var p := params[ParamIndex(t)];
    RenderTokenValue(t, params);
    TokenShape(RenderToken(t, params), if t.percent then p * 100.0 else p, FormatSpec(t.fmt), t.percent);
  }

  /** A value rendered in a format, with its optional percent sign. */
  lemma TokenShape(s: string, v: real, f: string, percent: bool)
    requires s == RenderValue(v, f) + (if percent then "%" else "")
    ensures var suffix := if percent then "%" else "";
            |s| >= |suffix| && s[|s| - |suffix|..] == suffix &&
            var body := s[..|s| - |suffix|];
            && (StartsWith(f, "i") ==> body == IntToDecimal(RoundHalfEven(v)) && IsIntegerNumeral(body))
            && (!StartsWith(f, "i") && StartsWith(f, "f") ==>
                  body == FixedPoint(v, FDecimals(f)) && (FDecimals(f) == 0 ==> '.' !in body))
            && (!StartsWith(f, "i") && !StartsWith(f, "f") && IsIntegral(v) ==> IsIntegerNumeral(body) && '.' !in body)
  {
    SplitSuffix(RenderValue(v, f), if percent then "%" else "");
    RenderValueFacts(v, f);
  }

  lemma RenderTokenValue(t: Token, params: seq<real>)
    requires t.Param? && WellFormed(t) && InRange(t, params)
    ensures var p := params[ParamIndex(t)];
            RenderToken(t, params)
            == RenderValue(if t.percent then p * 100.0 else p, FormatSpec(t.fmt)) + (if t.percent then "%" else "")
  {
  }

  lemma SplitSuffix(body: string, suffix: string)
    ensures var s := body + suffix; |s| >= |suffix| && s[|s| - |suffix|..] == suffix && s[..|s| - |suffix|] == body
  {
    var s := body + suffix;
    assert s[..|body|] == body;
    assert s[|body|..] == suffix;
  }

  /** What each format makes of a value. */
  lemma RenderValueFacts(v: real, f: string)
    ensures var body := RenderValue(v, f);
            && (StartsWith(f, "i") ==> body == IntToDecimal(RoundHalfEven(v)) && IsIntegerNumeral(body))
            && (!StartsWith(f, "i") && StartsWith(f, "f") ==>
                  body == FixedPoint(v, FDecimals(f)) && (FDecimals(f) == 0 ==> '.' !in body))
            && (!StartsWith(f, "i") && !StartsWith(f, "f") && IsIntegral(v) ==> IsIntegerNumeral(body) && '.' !in body)
  {
    if StartsWith(f, "i") {
      RenderValueInteger(v, f);
    } else if StartsWith(f, "f") {
      RenderValueFixed(v, f);
    } else {
      RenderValueNatural(v, f);
    }
  }

  /** The `i` format prints the value rounded half-to-even, as an integer numeral. */
  lemma RenderValueInteger(value: real, f: string)
    requires StartsWith(f, "i")
    ensures RenderValue(value, f) == IntToDecimal(RoundHalfEven(value)) && IsIntegerNumeral(RenderValue(value, f))
  {
    IntToDecimalIsNumeral(RoundHalfEven(value));
  }

  /** The `f<N>` format prints exactly N decimals, and no point for N = 0. */
  lemma RenderValueFixed(value: real, f: string)
    requires !StartsWith(f, "i") && StartsWith(f, "f")
    ensures RenderValue(value, f) == FixedPoint(value, FDecimals(f))
    ensures FDecimals(f) == 0 ==> '.' !in RenderValue(value, f)
    ensures var s := RenderValue(value, f); var n := FDecimals(f);
            n > 0 ==> exists i :: 0 < i < |s| && s[i] == '.' && |s| - i - 1 == n
  {
    FixedPointShape(value, FDecimals(f));
  }

  /** Without a format, an integral value prints with no point and any other with at most four decimals and no trailing zero. */
  lemma RenderValueNatural(value: real, f: string)
    requires !StartsWith(f, "i") && !StartsWith(f, "f")
    ensures IsIntegral(value) ==> IsIntegerNumeral(RenderValue(value, f)) && '.' !in RenderValue(value, f)
    ensures !IsIntegral(value) ==>
              var s := RenderValue(value, f);
              s != [] && s[|s| - 1] != '.' && forall i :: 0 <= i < |s| && s[i] == '.' ==> |s| - i - 1 <= 4 && s[|s| - 1] != '0'
  {
    FormatNumNatural(value);
  }

  /** `f<N>` reads back the N written after the `f`. */
  lemma FDecimalsReads(n: nat)
    ensures StartsWith("f" + NatToDecimal(n), "f") && FDecimals("f" + NatToDecimal(n)) == n
  {
    var f := "f" + NatToDecimal(n);
    assert f[..1] == "f";
    var d := DigitRun(f, 1);
    assert f[1..] == NatToDecimal(n);
    assert d == |NatToDecimal(n)|;
    assert f[1..1 + d] == NatToDecimal(n);
    NatToDecimalRoundTrip(n);
  }
}
