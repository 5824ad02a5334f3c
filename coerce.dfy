/**
 * The coercions that turn loosely typed JSON fields into column values:
 * `to_int`, `as_hash`, `as_value`, `as_custom` and `source_group` of the
 * database builder (build_db.py:25-87), the server's `extract_hash_value`,
 * `numeric_value` and `parse_override_skill_params` (serve.py:235-245,
 * 488-522), and the worker's `as_float` (cf_worker/src/entry.py:183-189).
 *
 * Python's `bool` is an `int`, and the code is not consistent about it: the
 * builder rejects booleans as ids and hashes, while the server renders a
 * boolean hash as "True"/"False" and reads it as a number. Each function
 * below states which side it takes, and `HashCoercionsAgree` and
 * `NumberCoercionsAgree` pin down that booleans are the only difference.
 * `float(str)` is the parameter `parseFloat`.
 */
module Coerce {
  import opened Common
  import opened Helpers

  // ---------------------------------------------------------------------
  // to_int
  // ---------------------------------------------------------------------

  /** `re.fullmatch(r"-?\d+", t)` */
  predicate IsSignedNumeral(t: string)
  {
    AllDigits(t) || (|t| > 1 && t[0] == '-' && AllDigits(t[1..]))
  }

  /**
   * `to_int(value)` (build_db.py:25-35): an `int` that is not a `bool` is
   * itself; a string whose trimmed form is an optionally negated digit run is
   * parsed; anything else, booleans included, gives None.
   */
  function ToInt(j: Json): (r: Option<int>)
    ensures r.Some? <==> j.Int? || (j.Str? && IsSignedNumeral(Strip(j.s)))
    ensures j.Int? ==> r == Some(j.i)
    ensures j.Str? && r.Some? ==> r == ParseInt(j.s)
  {
    match j
    case Int(i) => Some(i)
    case Str(s) =>
      if IsSignedNumeral(Strip(s)) then
        NumeralParses(s);
        ParseInt(s)
      else None
    case _ => None
  }

  lemma NumeralParses(s: string)
    requires IsSignedNumeral(Strip(s))
    ensures ParseInt(s).Some?
  {
    var t := Strip(s);
    if t[0] == '-' {
      assert IsIntBody(t[1..]);
    } else {
      assert IsIntBody(t);
    }
  }

  /** `to_int(str(i)) == i` and `to_int(i) == i`: the decimal form of any integer reads back. */
  lemma ToIntDecimal(i: int)
    ensures ToInt(Str(IntToDecimal(i))) == Some(i)
    ensures ToInt(Int(i)) == Some(i)
  {
    var s := IntToDecimal(i);
    StripNoop(s);
    if i < 0 {
      assert s[1..] == NatToDecimal(-i);
    }
    assert IsSignedNumeral(Strip(s));
    ParseIntDecimal(i);
  }

  /** Booleans, floats, containers and text that is not a plain numeral are never ids. */
  lemma ToIntRejects(j: Json)
    ensures j.Bool? || j.Null? || j.Real? || j.Arr? || j.Obj? ==> ToInt(j) == None
    ensures j.Str? && !IsSignedNumeral(Strip(j.s)) ==> ToInt(j) == None
  {
  }

  // ---------------------------------------------------------------------
  // Hash coercions
  // ---------------------------------------------------------------------

  /** The trimmed text of a string, or None when nothing is left. */
  function TrimmedToken(s: string): (r: Option<string>)
    ensures r.Some? ==> r.value != [] && Strip(r.value) == r.value
  {
    var t := Strip(s);
    StripIdempotent(s);
    if t == [] then None else Some(t)
  }

  /**
   * `as_hash(value)` (build_db.py:38-50): unwraps `{"Hash": ...}` once, then
   * an `int` other than a `bool` becomes its decimal form and a string its
   * non-empty trimmed form.
   */
  function AsHash(j: Json): (r: Option<string>)
    ensures r.Some? ==> r.value != [] && Strip(r.value) == r.value
    ensures HashRaw(j).Int? ==> r == Some(IntToDecimal(HashRaw(j).i))
    ensures HashRaw(j).Str? ==> r == (if Strip(HashRaw(j).s) == [] then None else Some(Strip(HashRaw(j).s)))
    ensures !HashRaw(j).Int? && !HashRaw(j).Str? ==> r.None?
  {
    var raw := if Has(j, "Hash") then Get(j, "Hash") else j;
    match raw
    case Int(i) =>
      StripNoop(IntToDecimal(i));
      Some(IntToDecimal(i))
    case Str(s) => TrimmedToken(s)
    case _ => None
  }

  /**
   * `extract_hash_value(raw)` (serve.py:235-245): any dict is replaced by its
   * "Hash" member (absent means None); an `int`, booleans included, becomes
   * `str(raw)`, so `True` is "True"; a string its non-empty trimmed form.
   */
  function ExtractHashValue(j: Json): (r: Option<string>)
    ensures r.Some? ==> r.value != [] && Strip(r.value) == r.value
    ensures HashRaw(j).Int? ==> r == Some(IntToDecimal(HashRaw(j).i))
    ensures HashRaw(j).Bool? ==> r == Some(if HashRaw(j).b then "True" else "False")
    ensures HashRaw(j).Str? ==> r == (if Strip(HashRaw(j).s) == [] then None else Some(Strip(HashRaw(j).s)))
    ensures !HashRaw(j).Int? && !HashRaw(j).Bool? && !HashRaw(j).Str? ==> r.None?
  {
    var raw := if j.Obj? then Get(j, "Hash") else j;
    match raw
    case Int(i) =>
      StripNoop(IntToDecimal(i));
      Some(IntToDecimal(i))
    case Bool(b) =>
      var t := if b then "True" else "False";
      assert t[0] == t[0] && !IsSpace(t[0]) && !IsSpace(t[|t| - 1]);
      StripNoop(t);
      Some(t)
    case Str(s) => TrimmedToken(s)
    case _ => None
  }

  /** The value a hash coercion looks at: the "Hash" member of a dict, else the value itself. */
  function HashRaw(j: Json): Json
  {
    if j.Obj? then Get(j, "Hash") else j
  }

  /**
   * The builder and the server read hash fields alike, except for booleans:
   * the builder rejects them and the server spells them out.
   */
  lemma HashCoercionsAgree(j: Json)
    ensures !HashRaw(j).Bool? ==> AsHash(j) == ExtractHashValue(j)
    ensures HashRaw(j).Bool? ==> AsHash(j) == None && ExtractHashValue(j) == Some(if HashRaw(j).b then "True" else "False")
  {
    if j.Obj? && !Has(j, "Hash") {
      assert Get(j, "Hash") == Null;
    }
  }

  /** An integer hash becomes the decimal numeral `to_int` reads back, so hashes stored as numbers and as strings meet. */
  lemma AsHashOfInt(i: int)
    ensures AsHash(Int(i)) == Some(IntToDecimal(i))
    ensures ToInt(Str(AsHash(Int(i)).value)) == Some(i)
  {
    ToIntDecimal(i);
  }

  /** Coercing the coerced hash again changes nothing. */
  lemma AsHashIdempotent(j: Json)
    requires AsHash(j).Some?
    ensures AsHash(Str(AsHash(j).value)) == AsHash(j)
  {
  }

  // ---------------------------------------------------------------------
  // Number coercions
  // ---------------------------------------------------------------------

  /** `float(raw)` on a JSON number. */
  function NumberValue(raw: Json): real
    requires raw.Int? || raw.Real?
  {
    if raw.Int? then raw.i as real else raw.r
  }

  /**
   * `as_value(value)` (build_db.py:53-64): a dict is replaced by its "Value"
   * member; None and booleans give None; numbers become floats; strings go
   * through `float()`.
   */
  function AsValue(j: Json, parseFloat: string -> Option<real>): (r: Option<real>)
    ensures var raw := if j.Obj? then Get(j, "Value") else j;
            (raw.Int? || raw.Real? ==> r == Some(NumberValue(raw)))
            && (raw.Str? ==> r == parseFloat(raw.s))
            && (!raw.Int? && !raw.Real? && !raw.Str? ==> r == None)
  {
    var raw := if j.Obj? then Get(j, "Value") else j;
    match raw
    case Int(_) => Some(NumberValue(raw))
    case Real(_) => Some(NumberValue(raw))
    case Str(s) => parseFloat(s)
    case _ => None
  }

  /**
   * `numeric_value(raw)` (serve.py:488-503): as `as_value`, except that a
   * boolean counts as the number 1 or 0 and a string is trimmed first, a blank
   * one giving None.
   */
  function NumericValue(j: Json, parseFloat: string -> Option<real>): (r: Option<real>)
    ensures var raw := if j.Obj? then Get(j, "Value") else j;
            (raw.Bool? ==> r == Some(if raw.b then 1.0 else 0.0))
            && (raw.Str? && Strip(raw.s) == [] ==> r == None)
            && (raw.Null? || raw.Arr? || raw.Obj? ==> r == None)
  {
    var raw := if j.Obj? then Get(j, "Value") else j;
    match raw
    case Bool(b) => Some(if b then 1.0 else 0.0)
    case Int(_) => Some(NumberValue(raw))
    case Real(_) => Some(NumberValue(raw))
    case Str(s) =>
      var token := Strip(s);
      if token == [] then None else parseFloat(token)
    case _ => None
  }

  /**
   * `as_float(value)` (cf_worker/src/entry.py:183-189): `float(value)`, None
   * when that raises; a boolean is 1.0 or 0.0 and no dict is unwrapped.
   */
  function AsFloat(j: Json, parseFloat: string -> Option<real>): (r: Option<real>)
    ensures j.Int? || j.Real? ==> r == Some(NumberValue(j))
    ensures j.Null? || j.Arr? || j.Obj? ==> r == None
  {
    match j
    case Bool(b) => Some(if b then 1.0 else 0.0)
    case Int(_) => Some(NumberValue(j))
    case Real(_) => Some(NumberValue(j))
    case Str(s) => parseFloat(s)
    case _ => None
  }

  /** `float()` ignores surrounding whitespace and rejects the empty string. */
  predicate TrimsLikeFloat(parseFloat: string -> Option<real>, s: string)
  {
    parseFloat(s) == parseFloat(Strip(s)) && parseFloat([]) == None
  }

  /**
   * The three number coercions agree on everything but booleans, given that
   * `float()` trims: the builder rejects booleans, the server and the worker
   * read them as 1.0/0.0.
   */
  lemma NumberCoercionsAgree(j: Json, parseFloat: string -> Option<real>)
    requires var raw := if j.Obj? then Get(j, "Value") else j;
             raw.Str? ==> TrimsLikeFloat(parseFloat, raw.s)
    ensures var raw := if j.Obj? then Get(j, "Value") else j;
            !raw.Bool? ==> AsValue(j, parseFloat) == NumericValue(j, parseFloat)
    ensures !j.Obj? ==> NumericValue(j, parseFloat) == AsFloat(j, parseFloat)
    ensures j.Bool? ==> AsValue(j, parseFloat) == None && AsFloat(j, parseFloat) == Some(if j.b then 1.0 else 0.0)
  {
  }

  // ---------------------------------------------------------------------
  // as_custom and source_group
  // ---------------------------------------------------------------------

  /** `as_custom(value)` (build_db.py:67-72): a string as it is, or the string "Value" member of a dict, untrimmed. */
  function AsCustom(j: Json): (r: Option<string>)
    ensures j.Str? ==> r == Some(j.s)
    ensures j.Obj? ==> (r.Some? <==> Get(j, "Value").Str?)
    ensures r.Some? && j.Obj? ==> r.value == Get(j, "Value").s
    ensures !j.Str? && !j.Obj? ==> r == None
  {
    if j.Str? then Some(j.s)
    else if j.Obj? && Get(j, "Value").Str? then Some(Get(j, "Value").s)
    else None
  }

  /** `path.replace("\\", "/").split("/")` */
  function PathParts(path: string): seq<string>
  {
    Split(ReplaceChar(path, '\\', "/"), '/')
  }

  /**
   * `source_group(path)` (build_db.py:81-87): "Story/<second segment>",
   * "Config/Level/<third segment>", or else the first segment. `split` always
   * yields a segment, so the "Unknown" branch is unreachable and not modelled.
   */
  function SourceGroup(path: string): string
  {
    GroupOfParts(PathParts(path))
  }

  /** The group named by the segments of a path. */
  function GroupOfParts(parts: seq<string>): string
    requires |parts| >= 1
  {
    if |parts| >= 2 && parts[0] == "Story" then "Story/" + parts[1]
    else if |parts| >= 3 && parts[0] == "Config" && parts[1] == "Level" then "Config/Level/" + parts[2]
    else parts[0]
  }

  lemma {:induction false} JoinPrefix(parts: seq<string>, n: nat, sep: string)
    requires 1 <= n <= |parts|
    ensures StartsWith(Join(parts, sep), Join(parts[..n], sep))
  {
    if |parts| == 1 {
      assert parts[..n] == parts;
    } else if n == 1 {
      assert Join(parts[..1], sep) == parts[0];
      assert Join(parts, sep) == parts[0] + sep + Join(parts[1..], sep);
    } else {
      JoinPrefix(parts[1..], n - 1, sep);
      assert parts[..n][1..] == parts[1..][..n - 1];
      assert Join(parts[..n], sep) == parts[0] + sep + Join(parts[1..][..n - 1], sep);
      assert Join(parts, sep) == parts[0] + sep + Join(parts[1..], sep);
    }
  }

  lemma JoinTwo(parts: seq<string>, sep: string)
    requires |parts| >= 2
    ensures StartsWith(Join(parts, sep), parts[0] + sep + parts[1])
  {
    JoinPrefix(parts, 2, sep);
    var q := parts[..2];
    assert q[1..] == [parts[1]];
    assert Join(q, sep) == parts[0] + sep + Join([parts[1]], sep);
  }

  lemma JoinThree(parts: seq<string>, sep: string)
    requires |parts| >= 3
    ensures StartsWith(Join(parts, sep), parts[0] + sep + parts[1] + sep + parts[2])
  {
    JoinPrefix(parts, 3, sep);
    var q := parts[..3];
    var tail := [parts[1], parts[2]];
    assert q[1..] == tail;
    assert tail[1..] == [parts[2]];
    assert Join(tail, sep) == parts[1] + sep + parts[2];
    assert Join(q, sep) == parts[0] + sep + Join(tail, sep);
  }

  /** A source group is a leading run of whole segments of the path with `\` turned into `/`. */
  lemma SourceGroupIsPrefix(path: string)
    ensures StartsWith(ReplaceChar(path, '\\', "/"), SourceGroup(path))
  {
    var norm := ReplaceChar(path, '\\', "/");
    SplitJoin(norm, '/');
    GroupIsJoinPrefix(Split(norm, '/'));
  }

  lemma GroupIsJoinPrefix(parts: seq<string>)
    requires |parts| >= 1
    ensures StartsWith(Join(parts, "/"), GroupOfParts(parts))
  {
    if |parts| >= 2 && parts[0] == "Story" {
      StoryGroupIsPrefix(parts);
    } else if |parts| >= 3 && parts[0] == "Config" && parts[1] == "Level" {
      LevelGroupIsPrefix(parts);
    } else {
      JoinPrefix(parts, 1, "/");
      assert Join(parts[..1], "/") == parts[0];
    }
  }

  lemma StoryGroupIsPrefix(parts: seq<string>)
    requires |parts| >= 2 && parts[0] == "Story"
    ensures StartsWith(Join(parts, "/"), "Story/" + parts[1])
  {
    JoinTwo(parts, "/");
    assert parts[0] + "/" == "Story/";
  }

  lemma LevelGroupIsPrefix(parts: seq<string>)
    requires |parts| >= 3 && parts[0] == "Config" && parts[1] == "Level"
    ensures StartsWith(Join(parts, "/"), "Config/Level/" + parts[2])
  {
    JoinThree(parts, "/");
    assert parts[0] + "/" + parts[1] + "/" == "Config/Level/";
  }


  /** No source group contains a backslash. */
  lemma SourceGroupNoBackslash(path: string)
    ensures '\\' !in SourceGroup(path)
  {
    var norm := ReplaceChar(path, '\\', "/");
    var g := SourceGroup(path);
    SourceGroupIsPrefix(path);
    NoBackslashAfterReplace(path);
    forall k | 0 <= k < |g| ensures g[k] != '\\' {
      assert norm[k] == g[k];
    }
  }

  lemma {:induction false} NoBackslashAfterReplace(s: string)
    ensures '\\' !in ReplaceChar(s, '\\', "/")
  {
    if s != [] {
      NoBackslashAfterReplace(s[1..]);
    }
  }

  // ---------------------------------------------------------------------
  // parse_override_skill_params
  // ---------------------------------------------------------------------

  /** The first value of a row that is an `int` (booleans included), in key order. */
  function FirstPyInt(fields: seq<(string, Json)>): (r: Option<int>)
    ensures r.Some? <==> exists k :: 0 <= k < |fields| && IsPyInt(fields[k].1)
    ensures r.Some? ==> exists k :: 0 <= k < |fields| && IsPyInt(fields[k].1) && r.value == PyIntValue(fields[k].1)
                          && forall m :: 0 <= m < k ==> !IsPyInt(fields[m].1)
  {
    if fields == [] then None
    else
      var init := fields[..|fields| - 1];
      assert forall k :: 0 <= k < |init| ==> init[k] == fields[k];
      var p := FirstPyInt(init);
      if p.Some? then p
      else if IsPyInt(fields[|fields| - 1].1) then Some(PyIntValue(fields[|fields| - 1].1))
      else None
  }

  /** The first value of a row that is a list, in key order. */
  function FirstList(fields: seq<(string, Json)>): (r: Option<seq<Json>>)
    ensures r.Some? <==> exists k :: 0 <= k < |fields| && fields[k].1.Arr?
    ensures r.Some? ==> exists k :: 0 <= k < |fields| && fields[k].1 == Arr(r.value)
                          && forall m :: 0 <= m < k ==> !fields[m].1.Arr?
  {
    if fields == [] then None
    else
      var init := fields[..|fields| - 1];
      assert forall k :: 0 <= k < |init| ==> init[k] == fields[k];
      var p := FirstList(init);
      if p.Some? then p
      else if fields[|fields| - 1].1.Arr? then Some(fields[|fields| - 1].1.items)
      else None
  }

  /** The skill id and parameter list a row contributes, if it has both. */
  function RowOverride(row: Json): Option<(int, seq<Json>)>
  {
    if !row.Obj? then None
    else
      var id := FirstPyInt(row.fields);
      var params := FirstList(row.fields);
      if id.Some? && params.Some? then Some((id.value, params.value)) else None
  }

  /** The override table of a list of rows: each contributing row written in order, the last one for an id winning. */
  function OverrideTable(rows: seq<Json>): map<int, seq<Json>>
  {
    if rows == [] then map[]
    else
      var table := OverrideTable(rows[..|rows| - 1]);
      match RowOverride(rows[|rows| - 1])
      case Some(e) => table[e.0 := e.1]
      case None => table
  }

  /** The inner loop of `parse_override_skill_params`: the first int and the first list among the row's values. */
  method ScanRow(fields: seq<(string, Json)>) returns (skillId: Option<int>, params: Option<seq<Json>>)
    ensures skillId == FirstPyInt(fields) && params == FirstList(fields)
  {
    skillId := None;
    params := None;
    for i := 0 to |fields|
      invariant skillId == FirstPyInt(fields[..i]) && params == FirstList(fields[..i])
    {
      assert fields[..i + 1][..i] == fields[..i];
      var val := fields[i].1;
      if skillId.None? && IsPyInt(val) {
        skillId := Some(PyIntValue(val));
      } else if params.None? && val.Arr? {
        params := Some(val.items);
      }
    }
    assert fields[..|fields|] == fields;
  }

  /** `parse_override_skill_params(raw)` (serve.py:506-522). */
  method ParseOverrideSkillParams(raw: Json) returns (out: map<int, seq<Json>>)
    ensures !raw.Arr? ==> out == map[]
    ensures raw.Arr? ==> out == OverrideTable(raw.items)
  {
    out := map[];
    if !raw.Arr? {
      return;
    }
    var rows := raw.items;
    for i := 0 to |rows|
      invariant out == OverrideTable(rows[..i])
    {
      assert rows[..i + 1][..i] == rows[..i];
      var row := rows[i];
      if !row.Obj? {
        continue;
      }
      var skillId, params := ScanRow(row.fields);
      if skillId.Some? && params.Some? {
        out := out[skillId.value := params.value];
      }
    }
    assert rows[..|rows|] == rows;
  }

  /** An id is in the table exactly when some row contributes it. */
  lemma {:induction false} OverrideTableKeys(rows: seq<Json>, id: int)
    ensures id in OverrideTable(rows) <==> exists i :: 0 <= i < |rows| && RowOverride(rows[i]).Some? && RowOverride(rows[i]).value.0 == id
  {
    if rows != [] {
      var init := rows[..|rows| - 1];
      OverrideTableKeys(init, id);
      assert forall i :: 0 <= i < |init| ==> init[i] == rows[i];
      if id in OverrideTable(init) {
        var i :| 0 <= i < |init| && RowOverride(init[i]).Some? && RowOverride(init[i]).value.0 == id;
        assert RowOverride(rows[i]).Some?;
      }
    }
  }

  /** The last row contributing an id decides its parameters. */
  lemma {:induction false} OverrideTableLastWins(rows: seq<Json>, i: nat)
    requires i < |rows| && RowOverride(rows[i]).Some?
    requires forall j :: i < j < |rows| && RowOverride(rows[j]).Some? ==> RowOverride(rows[j]).value.0 != RowOverride(rows[i]).value.0
    ensures RowOverride(rows[i]).value.0 in OverrideTable(rows)
    ensures OverrideTable(rows)[RowOverride(rows[i]).value.0] == RowOverride(rows[i]).value.1
  {
    if i < |rows| - 1 {
      var init := rows[..|rows| - 1];
      assert init[i] == rows[i];
      forall j | i < j < |init| && RowOverride(init[j]).Some?
        ensures RowOverride(init[j]).value.0 != RowOverride(init[i]).value.0
      {
        assert init[j] == rows[j];
      }
      OverrideTableLastWins(init, i);
    }
  }
}
