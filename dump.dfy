/**
 * The SQL dump exporter (scripts/export_sqlite_dump.py): every database is
 * dumped statement by statement; `rewrite_dump_line` drops transaction
 * control and duplicate sqlite_sequence tables and, with prefixing on, puts
 * `<prefix>__` in front of every object name; `d1_filter_line` then drops,
 * line by line, what the D1 service refuses (triggers, views, virtual and
 * full-text tables, pragmas, transaction control). The regular expressions
 * are predicates on the trimmed line, matched as Python's `re` matches them
 * (greedy, optional groups tried present first), with ASCII case folding.
 */
module SqlDump {
  import opened Common

  // ---------------------------------------------------------------------
  // Identifiers: strip_ident, quote_ident, prefixed_name
  // ---------------------------------------------------------------------

  datatype Quoting = DoubleQuoted | Backticked | Bracketed | Bare

  /** The enclosing pair of an already trimmed identifier token. */
  function QuotingOf(t: string): Quoting
  {
    if |t| >= 2 && t[0] == '"' && t[|t| - 1] == '"' then DoubleQuoted
    else if |t| >= 2 && t[0] == '`' && t[|t| - 1] == '`' then Backticked
    else if |t| >= 2 && t[0] == '[' && t[|t| - 1] == ']' then Bracketed
    else Bare
  }

  /** `strip_ident(token)`: the trimmed token without one enclosing pair of quotes, backticks or brackets. */
  function StripIdent(token: string): (r: string)
    ensures QuotingOf(Strip(token)) == Bare ==> r == Strip(token)
    ensures QuotingOf(Strip(token)) != Bare ==> |r| + 2 == |Strip(token)| && Strip(token) == [Strip(token)[0]] + r + [Strip(token)[|Strip(token)| - 1]]
  {
    var t := Strip(token);
    if QuotingOf(t) != Bare then
      assert t == [t[0]] + t[1..|t| - 1] + [t[|t| - 1]];
      t[1..|t| - 1]
    else t
  }

  /** `name` in the given quoting; a bare identifier is written double-quoted. */
  function Quote(name: string, q: Quoting): string
  {
    match q
    case Backticked => "`" + name + "`"
    case Bracketed => "[" + name + "]"
    case _ => "\"" + name + "\""
  }

  /** `quote_ident(name, template)`: `name` quoted like the template, double quotes for a bare template. */
  function QuoteIdent(name: string, template: string): (r: string)
    ensures QuotingOf(r) == (if QuotingOf(Strip(template)) == Bare then DoubleQuoted else QuotingOf(Strip(template)))
    ensures StripIdent(r) == name
  {
    var r := Quote(name, QuotingOf(Strip(template)));
    assert r[0] != '"' || r[|r| - 1] == '"';
    StripNoop(r);
    r
  }

  /** `prefixed_name(raw_ident, prefix)`: `<prefix>__<name>` in the identifier's own quoting, never prefixed twice. */
  function PrefixedName(rawIdent: string, prefix: string): (r: string)
    ensures StripIdent(r) == (if StartsWith(StripIdent(rawIdent), prefix + "__") then StripIdent(rawIdent)
                              else prefix + "__" + StripIdent(rawIdent))
    ensures StartsWith(StripIdent(r), prefix + "__")
    ensures QuotingOf(r) == (if QuotingOf(Strip(rawIdent)) == Bare then DoubleQuoted else QuotingOf(Strip(rawIdent)))
  {
    var name := StripIdent(rawIdent);
    if StartsWith(name, prefix + "__") then QuoteIdent(name, rawIdent)
    else
      assert (prefix + "__" + name)[..|prefix + "__"|] == prefix + "__";
      QuoteIdent(prefix + "__" + name, rawIdent)
  }

  /** Prefixing an identifier twice is the same as prefixing it once. */
  lemma PrefixedNameIdempotent(rawIdent: string, prefix: string)
    ensures PrefixedName(PrefixedName(rawIdent, prefix), prefix) == PrefixedName(rawIdent, prefix)
  {
    var once := PrefixedName(rawIdent, prefix);
    var named := StripIdent(once);
    PrefixedNameQuotes(rawIdent, prefix);
    QuoteStable(named, QuotingOf(Strip(rawIdent)));
    assert PrefixedName(once, prefix) == QuoteIdent(named, once);
  }

  /** A prefixed identifier is its new name in the identifier's own quoting. */
  lemma PrefixedNameQuotes(rawIdent: string, prefix: string)
    ensures PrefixedName(rawIdent, prefix) == Quote(StripIdent(PrefixedName(rawIdent, prefix)), QuotingOf(Strip(rawIdent)))
  {
  }

  /** Quoting a name, then quoting it again as the result is quoted, changes nothing. */
  lemma QuoteStable(name: string, q: Quoting)
    ensures Strip(Quote(name, q)) == Quote(name, q)
    ensures Quote(name, QuotingOf(Quote(name, q))) == Quote(name, q)
  {
    var r := Quote(name, q);
    assert r[0] != '"' || r[|r| - 1] == '"';
    StripNoop(r);
  }


  // ---------------------------------------------------------------------
  // Matching pieces
  // ---------------------------------------------------------------------

  /** The length of the whitespace run at `i` (a greedy `\s*`). */
  function SpaceRun(s: string, i: nat): (n: nat)
    requires i <= |s|
    ensures i + n <= |s|
    ensures forall k :: i <= k < i + n ==> IsSpace(s[k])
    ensures i + n < |s| ==> !IsSpace(s[i + n])
    decreases |s| - i
  {
    if i < |s| && IsSpace(s[i]) then 1 + SpaceRun(s, i + 1) else 0
  }

  /** The keyword `kw` (upper case) at `i`, in any ASCII case. */
  predicate KwAt(s: string, i: nat, kw: string)
  {
    i + |kw| <= |s| && Upper(s[i..i + |kw|]) == kw
  }

  /** `kw1\s+kw2\s+...`: the keywords separated by whitespace; the position after the last one. */
  function PhraseEnd(s: string, i: nat, words: seq<string>): (r: Option<nat>)
    requires words != []
    ensures r.Some? ==> i <= r.value <= |s|
    decreases |words|
  {
    if !KwAt(s, i, words[0]) then None
    else if |words| == 1 then Some(i + |words[0]|)
    else
      var j := i + |words[0]|;
      var n := SpaceRun(s, j);
      if n == 0 then None else PhraseEnd(s, j + n, words[1..])
  }

  /** Python's `\w`, ASCII part. */
  predicate IsWordChar(c: char)
  {
    IsAsciiLower(c) || IsAsciiUpper(c) || IsDigit(c) || c == '_'
  }

  predicate BoundaryBefore(s: string, i: nat)
    requires i <= |s|
  {
    i == 0 || !IsWordChar(s[i - 1])
  }

  predicate BoundaryAfter(s: string, j: nat)
    requires j <= |s|
  {
    j == |s| || !IsWordChar(s[j])
  }

  /** `^\s*kw1\s+kw2...\b` on a trimmed line. */
  predicate StartsWithPhrase(s: string, words: seq<string>)
    requires words != []
  {
    PhraseEnd(s, 0, words).Some? && BoundaryAfter(s, PhraseEnd(s, 0, words).value)
  }

  /** `\bkw1\s+kw2...\b` searched anywhere. */
  predicate ContainsPhrase(s: string, words: seq<string>)
    requires words != []
  {
    exists i :: 0 <= i <= |s| && BoundaryBefore(s, i) && PhraseEnd(s, i, words).Some?
                && BoundaryAfter(s, PhraseEnd(s, i, words).value)
  }

  /** The first position at or after `i` holding `c`. */
  function FindChar(s: string, i: nat, c: char): (r: Option<nat>)
    requires i <= |s|
    ensures r.Some? ==> i <= r.value < |s| && s[r.value] == c && c !in s[i..r.value]
    ensures r.None? ==> c !in s[i..]
    decreases |s| - i
  {
    if i == |s| then None
    else if s[i] == c then Some(i)
    else
      var r := FindChar(s, i + 1, c);
      assert s[i..] == [s[i]] + s[i + 1..];
      if r.Some? then
        assert s[i..r.value] == [s[i]] + s[i + 1..r.value];
        r
      else r
  }

  predicate IsIdentStart(c: char)
  {
    IsAsciiLower(c) || IsAsciiUpper(c) || c == '_'
  }

  predicate IsIdentChar(c: char)
  {
    IsIdentStart(c) || IsDigit(c) || c == '$'
  }

  function IdentRun(s: string, i: nat): (n: nat)
    requires i <= |s|
    ensures i + n <= |s|
    decreases |s| - i
  {
    if i < |s| && IsIdentChar(s[i]) then 1 + IdentRun(s, i + 1) else 0
  }

  /** The closing character of a quoted identifier that opens with `c`. */
  function Closer(c: char): Option<char>
  {
    if c == '`' then Some('`') else if c == '"' then Some('"') else if c == '[' then Some(']') else None
  }

  /**
   * IDENT at `i`: `` `...` ``, `"..."` or `[...]` with at least one character
   * and no closing character inside, or `[A-Za-z_][A-Za-z0-9_$]*`; its end.
   */
  function IdentEnd(s: string, i: nat): (r: Option<nat>)
    requires i <= |s|
    ensures r.Some? ==> i < r.value <= |s|
  {
    if i == |s| then None
    else if Closer(s[i]).Some? then
      var close := FindChar(s, i + 1, Closer(s[i]).value);
      if close.Some? && close.value > i + 1 then Some(close.value + 1) else None
    else if IsIdentStart(s[i]) then Some(i + 1 + IdentRun(s, i + 1))
    else None
  }

  /** What may follow a matched name. */
  datatype RestKind =
    | ParenRest    // `\s*\(.*`
    | ViewRest     // `\s+AS\s+.*`
    | TriggerRest  // `\s+.*`
    | InsertRest   // `\s+VALUES\s*\(.*`
    | DeleteRest   // `\s*;?`

  /** The tail is matched to the end of the line; `.` does not match a newline. */
  predicate RestOk(kind: RestKind, t: string)
  {
    var n := SpaceRun(t, 0);
    match kind
    case ParenRest => n < |t| && t[n] == '(' && '\n' !in t[n + 1..]
    case ViewRest =>
      n > 0 && KwAt(t, n, "AS") && SpaceRun(t, n + 2) > 0 && '\n' !in t[n + 2 + SpaceRun(t, n + 2)..]
    case TriggerRest => n > 0 && '\n' !in t[n..]
    case InsertRest =>
      n > 0 && KwAt(t, n, "VALUES")
      && var m := SpaceRun(t, n + 6);
         n + 6 + m < |t| && t[n + 6 + m] == '(' && '\n' !in t[n + 7 + m..]
    case DeleteRest => t[n..] == "" || t[n..] == ";"
  }

  /** A statement split around one object name: the head the pattern consumed, the name token, and the tail. */
  datatype Named = Named(head: string, name: string, rest: string)

  /** The name at `i`, followed by a tail of the given kind. */
  function NamedAt(s: string, i: nat, kind: RestKind): (r: Option<Named>)
    requires i <= |s|
    ensures r.Some? ==> r.value.head + r.value.name + r.value.rest == s && r.value.name != [] && r.value.head == s[..i]
  {
    var e := IdentEnd(s, i);
    if e.Some? && RestOk(kind, s[e.value..]) then
      assert s[..i] + s[i..e.value] + s[e.value..] == s;
      Some(Named(s[..i], s[i..e.value], s[e.value..]))
    else None
  }

  const IfNotExists: seq<string> := ["IF", "NOT", "EXISTS"]

  /** `kw1\s+...\s+`: the keywords and the whitespace after them. */
  function PhraseWs(s: string, i: nat, words: seq<string>): (r: Option<nat>)
    requires words != []
    ensures r.Some? ==> i <= r.value <= |s|
  {
    var e := PhraseEnd(s, i, words);
    if e.Some? && SpaceRun(s, e.value) > 0 then Some(e.value + SpaceRun(s, e.value)) else None
  }

  /** `(?:IF\s+NOT\s+EXISTS\s+)?(?P<name>IDENT)<rest>` at `i`: with the optional group first, then without it. */
  function NamedAfterOptional(s: string, i: nat, kind: RestKind): (r: Option<Named>)
    requires i <= |s|
    ensures r.Some? ==> r.value.head + r.value.name + r.value.rest == s && r.value.name != []
  {
    var g := PhraseWs(s, i, IfNotExists);
    if g.Some? && NamedAt(s, g.value, kind).Some? then NamedAt(s, g.value, kind)
    else NamedAt(s, i, kind)
  }

  /** A pattern `^(<words>\s+(?:IF\s+NOT\s+EXISTS\s+)?)(?P<name>IDENT)<rest>$`. */
  function MatchNamed(s: string, words: seq<string>, optionalIne: bool, kind: RestKind): (r: Option<Named>)
    requires words != []
    ensures r.Some? ==> r.value.head + r.value.name + r.value.rest == s && r.value.name != []
  {
    var h := PhraseWs(s, 0, words);
    if h.None? then None
    else if optionalIne then NamedAfterOptional(s, h.value, kind)
    else NamedAt(s, h.value, kind)
  }

  function CreateTableMatch(s: string): Option<Named> { MatchNamed(s, ["CREATE", "TABLE"], true, ParenRest) }
  function CreateViewMatch(s: string): Option<Named> { MatchNamed(s, ["CREATE", "VIEW"], true, ViewRest) }
  function CreateTriggerMatch(s: string): Option<Named> { MatchNamed(s, ["CREATE", "TRIGGER"], true, TriggerRest) }
  function InsertIntoMatch(s: string): Option<Named> { MatchNamed(s, ["INSERT", "INTO"], false, InsertRest) }
  function DeleteFromMatch(s: string): Option<Named> { MatchNamed(s, ["DELETE", "FROM"], false, DeleteRest) }

  /** A CREATE INDEX statement split around the index name and the table name. */
  datatype IndexParts = IndexParts(head: string, idx: string, on: string, table: string, rest: string)

  /** `(?P<idx>IDENT)(\s+ON\s+)(?P<table>IDENT)(?P<rest>\s*\(.*)$` at `i`. */
  function IndexAt(s: string, i: nat): (r: Option<IndexParts>)
    requires i <= |s|
    ensures r.Some? ==> r.value.head + r.value.idx + r.value.on + r.value.table + r.value.rest == s
  {
    var e := IdentEnd(s, i);
    if e.None? then None
    else
      var o := PhraseWs(s, e.value + SpaceRun(s, e.value), ["ON"]);
      if SpaceRun(s, e.value) == 0 || o.None? then None
      else
        var t := NamedAt(s, o.value, ParenRest);
        if t.None? then None
        else
          PrefixInThree(s, i, e.value, o.value);
          Some(IndexParts(s[..i], s[i..e.value], s[e.value..o.value], t.value.name, t.value.rest))
  }

  lemma PrefixInThree(s: string, i: nat, j: nat, k: nat)
    requires i <= j <= k <= |s|
    ensures s[..k] == s[..i] + s[i..j] + s[j..k]
  {
  }

  /** `CREATE_INDEX_RE.match(s)`: `CREATE\s+(?:UNIQUE\s+)?INDEX\s+(?:IF\s+NOT\s+EXISTS\s+)?` then the parts. */
  function CreateIndexMatch(s: string): Option<IndexParts>
  {
    var c := PhraseWs(s, 0, ["CREATE"]);
    if c.None? then None
    else
      var u := PhraseWs(s, c.value, ["UNIQUE"]);
      var k := PhraseWs(s, if u.Some? then u.value else c.value, ["INDEX"]);
      if k.None? then None
      else
        var g := PhraseWs(s, k.value, IfNotExists);
        if g.Some? && IndexAt(s, g.value).Some? then IndexAt(s, g.value) else IndexAt(s, k.value)
  }

  // ---------------------------------------------------------------------
  // rewrite_dump_line
  // ---------------------------------------------------------------------

  predicate IsSequenceName(rawIdent: string)
  {
    Lower(StripIdent(rawIdent)) == "sqlite_sequence"
  }

  /** How `rewrite_dump_line` treats a trimmed line, its checks taken in order. */
  datatype LineKind =
    | Blank           // nothing left after trimming
    | Transaction     // `BEGIN TRANSACTION;` or `COMMIT;` in any case
    | SequenceCreate  // CREATE TABLE sqlite_sequence
    | SequenceDelete  // DELETE FROM sqlite_sequence, no earlier pattern matching
    | Statement       // anything else

  function KindOf(text: string): LineKind
  {
    if text == [] then Blank
    else if Upper(text) == "BEGIN TRANSACTION;" || Upper(text) == "COMMIT;" then Transaction
    else if CreateTableMatch(text).Some? && IsSequenceName(CreateTableMatch(text).value.name) then SequenceCreate
    else if CreateTableMatch(text).None? && CreateIndexMatch(text).None? && CreateViewMatch(text).None?
            && CreateTriggerMatch(text).None? && InsertIntoMatch(text).None?
            && DeleteFromMatch(text).Some? && IsSequenceName(DeleteFromMatch(text).value.name) then SequenceDelete
    else Statement
  }

  /** The position after `\s+VALUES\s*\(` at the start of a tail. */
  function ValuesParen(rest: string): (r: Option<nat>)
    ensures r.Some? ==> 0 < r.value <= |rest| && rest[r.value - 1] == '('
  {
    var n := SpaceRun(rest, 0);
    if n == 0 || !KwAt(rest, n, "VALUES") then None
    else
      var m := SpaceRun(rest, n + 6);
      if !CharAt(rest, n + 6 + m, '(') then None
      else Some(n + 7 + m)
  }

  /** `s` holds `c` at position `j`. */
  predicate CharAt(s: string, j: nat, c: char)
  {
    j < |s| && s[j] == c
  }

  /** The position after the opening quote of `\s*'`, following the parenthesis. */
  function LiteralStart(rest: string): (r: Option<nat>)
    ensures r.Some? ==> 0 < r.value <= |rest| && rest[r.value - 1] == '\''
  {
    match ValuesParen(rest)
    case None => None
    case Some(p) =>
      var q := p + SpaceRun(rest, p);
      if CharAt(rest, q, '\'') then Some(q + 1) else None
  }

  /**
   * Where `^(\s+VALUES\s*\(\s*)'([^']+)'` finds the quoted table name in the
   * tail of an INSERT INTO sqlite_sequence: the bounds of its text.
   */
  function SequenceLiteral(rest: string): (r: Option<(nat, nat)>)
    ensures r.Some? ==> 0 < r.value.0 < r.value.1 < |rest| && rest[r.value.0 - 1] == '\'' && rest[r.value.1] == '\''
                        && '\'' !in rest[r.value.0..r.value.1]
  {
    match LiteralStart(rest)
    case None => None
    case Some(a) =>
      var close := FindChar(rest, a, '\'');
      if close.None? || close.value == a then None else Some((a, close.value))
  }

  /** A table name with the prefix in front, unless it has it already. */
  function PrefixedText(name: string, prefix: string): (r: string)
    ensures StartsWith(r, prefix + "__")
    ensures StartsWith(name, prefix + "__") ==> r == name
    ensures !StartsWith(name, prefix + "__") ==> r == prefix + "__" + name
  {
    if StartsWith(name, prefix + "__") then name
    else
      assert (prefix + "__" + name)[..|prefix + "__"|] == prefix + "__";
      prefix + "__" + name
  }

  /** The substitution applied once: the quoted table name is prefixed; a tail without one is unchanged. */
  function PrefixSequenceValue(rest: string, prefix: string): string
  {
    match SequenceLiteral(rest)
    case None => rest
    case Some((a, b)) => rest[..a] + PrefixedText(rest[a..b], prefix) + rest[b..]
  }

  lemma {:induction false} SpaceRunAgrees(x: string, y: string, i: nat, a: nat)
    requires i <= a <= |x| && a <= |y| && x[..a] == y[..a] && i + SpaceRun(x, i) < a
    ensures SpaceRun(y, i) == SpaceRun(x, i)
    decreases a - i
  {
    assert x[i] == x[..a][i] && y[i] == y[..a][i];
    if IsSpace(x[i]) {
      SpaceRunAgrees(x, y, i + 1, a);
    }
  }

  lemma KwAtAgrees(x: string, y: string, i: nat, kw: string, a: nat)
    requires a <= |x| && a <= |y| && x[..a] == y[..a] && i + |kw| <= a
    ensures KwAt(x, i, kw) == KwAt(y, i, kw)
  {
    assert x[i..i + |kw|] == x[..a][i..i + |kw|];
    assert y[i..i + |kw|] == y[..a][i..i + |kw|];
  }

  lemma {:induction false} FindCharAt(s: string, i: nat, j: nat, c: char)
    requires i <= j < |s| && s[j] == c && c !in s[i..j]
    ensures FindChar(s, i, c) == Some(j)
    decreases j - i
  {
    if i < j {
      assert s[i] == s[i..j][0];
      assert s[i + 1..j] == s[i..j][1..];
      FindCharAt(s, i + 1, j, c);
    }
  }

  lemma ValuesParenAgrees(x: string, y: string, a: nat)
    requires ValuesParen(x).Some? && ValuesParen(x).value < a <= |x| && a <= |y| && x[..a] == y[..a]
    ensures ValuesParen(y) == ValuesParen(x)
  {
    KeywordAgrees(x, y, a);
    ParenAgrees(x, y, a);
    ValuesParenShape(x);
    var n := SpaceRun(x, 0);
    ValuesParenIs(y, n, SpaceRun(x, n + 6));
  }

  lemma KeywordAgrees(x: string, y: string, a: nat)
    requires ValuesParen(x).Some? && ValuesParen(x).value < a <= |x| && a <= |y| && x[..a] == y[..a]
    ensures var n := SpaceRun(x, 0); SpaceRun(y, 0) == n && KwAt(y, n, "VALUES")
  {
    ValuesParenShape(x);
    SpaceRunAgrees(x, y, 0, a);
    KwAtAgrees(x, y, SpaceRun(x, 0), "VALUES", a);
  }

  lemma ParenAgrees(x: string, y: string, a: nat)
    requires ValuesParen(x).Some? && ValuesParen(x).value < a <= |x| && a <= |y| && x[..a] == y[..a]
    ensures var n := SpaceRun(x, 0); var m := SpaceRun(x, n + 6); SpaceRun(y, n + 6) == m && CharAt(y, n + 6 + m, '(')
  {
    ValuesParenShape(x);
    var n := SpaceRun(x, 0);
    var m := SpaceRun(x, n + 6);
    SpaceRunAgrees(x, y, n + 6, a);
    CharAtAgrees(x, y, n + 6 + m, '(', a);
  }

  lemma ValuesParenIs(s: string, n: nat, m: nat)
    requires n == SpaceRun(s, 0) && n > 0 && KwAt(s, n, "VALUES")
    requires m == SpaceRun(s, n + 6) && CharAt(s, n + 6 + m, '(')
    ensures ValuesParen(s) == Some(n + 7 + m)
  {
  }

  lemma ValuesParenShape(s: string)
    requires ValuesParen(s).Some?
    ensures var n := SpaceRun(s, 0); var m := SpaceRun(s, n + 6);
            n > 0 && KwAt(s, n, "VALUES") && CharAt(s, n + 6 + m, '(') && ValuesParen(s) == Some(n + 7 + m)
  {
  }

  lemma CharAtAgrees(x: string, y: string, j: nat, c: char, a: nat)
    requires j < a <= |x| && a <= |y| && x[..a] == y[..a]
    ensures CharAt(y, j, c) == CharAt(x, j, c)
  {
    assert y[j] == y[..a][j] == x[..a][j] == x[j];
  }

  /** Where the literal starts depends only on the text before it; where it ends, on the next quote. */
  lemma SequenceLiteralAgrees(x: string, y: string, a: nat, b: nat, e: nat)
    requires SequenceLiteral(x) == Some((a, b)) && a <= |y| && x[..a] == y[..a]
    requires a < e < |y| && FindChar(y, a, '\'') == Some(e)
    ensures SequenceLiteral(y) == Some((a, e))
  {
    assert LiteralStart(x) == Some(a);
    LiteralStartAgrees(x, y, a);
  }

  lemma LiteralStartAgrees(x: string, y: string, a: nat)
    requires LiteralStart(x) == Some(a) && a <= |y| && x[..a] == y[..a]
    ensures LiteralStart(y) == Some(a)
  {
    var p := ValuesParen(x).value;
    var q := p + SpaceRun(x, p);
    assert q + 1 == a && CharAt(x, q, '\'');
    ValuesParenAgrees(x, y, a);
    QuoteAgrees(x, y, p, a);
  }

  lemma QuoteAgrees(x: string, y: string, p: nat, a: nat)
    requires p <= |x| && p + SpaceRun(x, p) + 1 == a <= |x| && a <= |y| && x[..a] == y[..a]
    ensures SpaceRun(y, p) == SpaceRun(x, p) && CharAt(y, p + SpaceRun(x, p), '\'') == CharAt(x, p + SpaceRun(x, p), '\'')
  {
    SpaceRunAgrees(x, y, p, a);
    CharAtAgrees(x, y, p + SpaceRun(x, p), '\'', a);
  }

  lemma PrefixedTextQuoteFree(name: string, prefix: string)
    requires '\'' !in name && '\'' !in prefix
    ensures '\'' !in PrefixedText(name, prefix) && PrefixedText(name, prefix) != []
  {
    if !StartsWith(name, prefix + "__") {
      assert PrefixedText(name, prefix) == prefix + "__" + name;
    }
  }

  lemma SequenceValueAt(rest: string, prefix: string, a: nat, b: nat)
    requires SequenceLiteral(rest) == Some((a, b))
    ensures a <= b <= |rest| && PrefixSequenceValue(rest, prefix) == rest[..a] + PrefixedText(rest[a..b], prefix) + rest[b..]
  {
  }

  /** Replacing the literal's text by a quote-free text moves its closing quote and nothing else. */
  lemma LiteralReplaced(rest: string, a: nat, b: nat, t: string)
    requires SequenceLiteral(rest) == Some((a, b)) && t != [] && '\'' !in t
    ensures SequenceLiteral(rest[..a] + t + rest[b..]) == Some((a, a + |t|))
  {
    var r := rest[..a] + t + rest[b..];
    SplicedLiteral(rest[..a], t, rest[b..]);
    SplicedPrefix(rest[..a], t, rest[b..]);
    SequenceLiteralAgrees(rest, r, a, b, a + |t|);
  }

  /** Where a quote-free text is spliced in before a quote, the next quote after its start closes it. */
  lemma SplicedLiteral(u: string, t: string, v: string)
    requires '\'' !in t && v != [] && v[0] == '\''
    ensures FindChar(u + t + v, |u|, '\'') == Some(|u| + |t|)
  {
    var r := u + t + v;
    assert r[|u|..|u| + |t|] == t;
    assert r[|u| + |t|] == v[0];
    FindCharAt(r, |u|, |u| + |t|, '\'');
  }

  lemma SplicedPrefix(u: string, t: string, v: string)
    ensures (u + t + v)[..|u|] == u
  {
  }



  /** Prefixing the sqlite_sequence literal twice is the same as once, for a prefix without quotes. */
  lemma SequenceValueIdempotent(rest: string, prefix: string)
    requires '\'' !in prefix
    ensures PrefixSequenceValue(PrefixSequenceValue(rest, prefix), prefix) == PrefixSequenceValue(rest, prefix)
  {
    if SequenceLiteral(rest).Some? {
      var a, b := SequenceLiteral(rest).value.0, SequenceLiteral(rest).value.1;
      SequenceValueAt(rest, prefix, a, b);
      PrefixedOnceAt(rest, prefix, a, b, PrefixedText(rest[a..b], prefix), PrefixSequenceValue(rest, prefix));
    }
  }

  /** The line with its literal `rest[a..b]` replaced by the prefixed text `t` is a fixed point. */
  lemma PrefixedOnceAt(rest: string, prefix: string, a: nat, b: nat, t: string, r: string)
    requires '\'' !in prefix && SequenceLiteral(rest) == Some((a, b))
    requires t == PrefixedText(rest[a..b], prefix) && r == rest[..a] + t + rest[b..]
    ensures PrefixSequenceValue(r, prefix) == r
  {
    PrefixedTextQuoteFree(rest[a..b], prefix);
    LiteralReplaced(rest, a, b, t);
    SplicedMiddle(rest[..a], t, rest[b..]);
    PrefixedTextIdempotent(rest[a..b], prefix);
    LiteralAlreadyPrefixed(r, prefix, a, a + |t|);
  }

  /** A literal whose text prefixing leaves alone leaves the line alone. */
  lemma LiteralAlreadyPrefixed(r: string, prefix: string, a: nat, e: nat)
    requires SequenceLiteral(r) == Some((a, e)) && a <= e <= |r| && PrefixedText(r[a..e], prefix) == r[a..e]
    ensures PrefixSequenceValue(r, prefix) == r
  {
    SequenceValueAt(r, prefix, a, e);
    SplitThree(r, a, e);
  }

  lemma PrefixedTextIdempotent(name: string, prefix: string)
    ensures PrefixedText(PrefixedText(name, prefix), prefix) == PrefixedText(name, prefix)
  {
  }

  lemma SplicedMiddle(u: string, t: string, v: string)
    ensures (u + t + v)[|u|..|u| + |t|] == t
  {
  }

  lemma SplitThree(r: string, i: nat, j: nat)
    requires i <= j <= |r|
    ensures r[..i] + r[i..j] + r[j..] == r
  {
  }

  /**
   * The line a statement becomes with prefixing on (the sqlite_sequence
   * CREATE excepted): the first pattern that matches decides which names are
   * replaced by their prefixed forms; everything around them is kept.
   */
  function Prefixed(text: string, prefix: string): string
  {
    if CreateTableMatch(text).Some? then
      var m := CreateTableMatch(text).value;
      m.head + PrefixedName(m.name, prefix) + m.rest
    else if CreateIndexMatch(text).Some? then
      var m := CreateIndexMatch(text).value;
      m.head + PrefixedName(m.idx, prefix) + m.on + PrefixedName(m.table, prefix) + m.rest
    else if CreateViewMatch(text).Some? then
      var m := CreateViewMatch(text).value;
      m.head + PrefixedName(m.name, prefix) + m.rest
    else if CreateTriggerMatch(text).Some? then
      var m := CreateTriggerMatch(text).value;
      m.head + PrefixedName(m.name, prefix) + m.rest
    else if InsertIntoMatch(text).Some? then
      var m := InsertIntoMatch(text).value;
      if IsSequenceName(m.name) then m.head + (m.name + PrefixSequenceValue(m.rest, prefix))
      else m.head + (PrefixedName(m.name, prefix) + m.rest)
    else text
  }

  /**
   * `rewrite_dump_line(line, prefix, prefix_enabled, seen_sqlite_sequence_create)`:
   * the line to write (None to drop it) and the new flag.
   */
  function RewriteDumpLine(line: string, prefix: string, enabled: bool, seen: bool): (r: (Option<string>, bool))
    ensures r.0.None? <==> KindOf(Strip(line)) in {Blank, Transaction, SequenceDelete} || (KindOf(Strip(line)) == SequenceCreate && seen)
    ensures r.1 <==> seen || KindOf(Strip(line)) == SequenceCreate
    ensures KindOf(Strip(line)) == SequenceCreate && r.0.Some? ==> r.0.value == Strip(line)
    ensures r.0.Some? && !enabled ==> r.0.value == Strip(line)
    ensures r.0.Some? && enabled && KindOf(Strip(line)) == Statement ==> r.0.value == Prefixed(Strip(line), prefix)
  {
    var text := Strip(line);
    match KindOf(text)
    case Blank => (None, seen)
    case Transaction => (None, seen)
    case SequenceCreate => if seen then (None, seen) else (Some(text), true)
    case SequenceDelete => (None, seen)
    case Statement => if enabled then (Some(Prefixed(text, prefix)), seen) else (Some(text), seen)
  }

  /** The lines `iterdump_prefixed` yields for one dump, and the flag after it. */
  function RewriteAll(lines: seq<string>, prefix: string, enabled: bool, seen: bool): (seq<string>, bool)
  {
    if lines == [] then ([], seen)
    else
      var before := RewriteAll(lines[..|lines| - 1], prefix, enabled, seen);
      var step := RewriteDumpLine(lines[|lines| - 1], prefix, enabled, before.1);
      (before.0 + (if step.0.Some? then [step.0.value] else []), step.1)
  }

  lemma RewriteAllSnoc(lines: seq<string>, line: string, prefix: string, enabled: bool, seen: bool)
    ensures var before := RewriteAll(lines, prefix, enabled, seen);
            var step := RewriteDumpLine(line, prefix, enabled, before.1);
            RewriteAll(lines + [line], prefix, enabled, seen) == (before.0 + (if step.0.Some? then [step.0.value] else []), step.1)
  {
    assert (lines + [line])[..|lines|] == lines;
  }

  /** `iterdump_prefixed(source_db, prefix, prefix_enabled)` over the dump's statements, the flag starting false. */
  method IterdumpPrefixed(dump: seq<string>, prefix: string, enabled: bool) returns (out: seq<string>)
    ensures out == RewriteAll(dump, prefix, enabled, false).0
  {
    out := [];
    var seen := false;
    for i := 0 to |dump|
      invariant out == RewriteAll(dump[..i], prefix, enabled, false).0
      invariant seen == RewriteAll(dump[..i], prefix, enabled, false).1
    {
      RewriteAllSnoc(dump[..i], dump[i], prefix, enabled, false);
      assert dump[..i + 1] == dump[..i] + [dump[i]];
      var step := RewriteDumpLine(dump[i], prefix, enabled, seen);
      var rewritten := step.0;
      seen := step.1;
      if rewritten.Some? {
        out := out + [rewritten.value];
      }
    }
    assert dump[..|dump|] == dump;
  }

  /** How many sqlite_sequence CREATE lines a dump lets through. */
  function SequenceCreatesKept(lines: seq<string>, prefix: string, enabled: bool, seen: bool): nat
  {
    if lines == [] then 0
    else
      var before := RewriteAll(lines[..|lines| - 1], prefix, enabled, seen);
      var last := lines[|lines| - 1];
      SequenceCreatesKept(lines[..|lines| - 1], prefix, enabled, seen)
      + (if RewriteDumpLine(last, prefix, enabled, before.1).0.Some? && KindOf(Strip(last)) == SequenceCreate then 1 else 0)
  }

  /**
   * The sqlite_sequence table is created at most once per dump: the flag
   * never goes back to false, and it is set exactly when the one CREATE is
   * let through.
   */
  lemma {:induction false} SequenceCreatedOnce(lines: seq<string>, prefix: string, enabled: bool, seen: bool)
    ensures seen ==> RewriteAll(lines, prefix, enabled, seen).1 && SequenceCreatesKept(lines, prefix, enabled, seen) == 0
    ensures !seen ==> SequenceCreatesKept(lines, prefix, enabled, seen) == (if RewriteAll(lines, prefix, enabled, seen).1 then 1 else 0)
  {
    if lines != [] {
      SequenceCreatedOnce(lines[..|lines| - 1], prefix, enabled, seen);
    }
  }

  /** With prefixing off, the dump is its own trimmed lines with the dropped ones left out. */
  lemma {:induction false} UnprefixedKeepsLines(lines: seq<string>, prefix: string, seen: bool)
    ensures forall x :: x in RewriteAll(lines, prefix, false, seen).0 ==> exists l :: l in lines && x == Strip(l)
    ensures |RewriteAll(lines, prefix, false, seen).0| <= |lines|
  {
    if lines != [] {
      var init := lines[..|lines| - 1];
      UnprefixedKeepsLines(init, prefix, seen);
      assert forall l :: l in init ==> l in lines;
    }
  }

  // ---------------------------------------------------------------------
  // export_merge
  // ---------------------------------------------------------------------

  /** One database to export: its path as written in the header, its prefix (the file stem) and its dump. */
  datatype DumpSource = DumpSource(path: string, prefix: string, dump: seq<string>)

  function SourceHeader(s: DumpSource): string
  {
    "-- source: " + s.path
  }

  /** The lines written for the sources, each source's flag starting false. */
  function MergedBody(sources: seq<DumpSource>, enabled: bool): seq<string>
  {
    if sources == [] then []
    else
      var s := sources[|sources| - 1];
      MergedBody(sources[..|sources| - 1], enabled) + [SourceHeader(s)] + RewriteAll(s.dump, s.prefix, enabled, false).0
  }

  lemma MergedBodyStep(sources: seq<DumpSource>, i: nat, enabled: bool)
    requires i < |sources|
    ensures MergedBody(sources[..i + 1], enabled)
            == MergedBody(sources[..i], enabled) + [SourceHeader(sources[i])] + RewriteAll(sources[i].dump, sources[i].prefix, enabled, false).0
  {
    assert sources[..i + 1][..i] == sources[..i];
  }

  /** `export_merge(sources, output_sql, prefix_enabled)`: the lines written, each followed by a newline. */
  method ExportMerge(sources: seq<DumpSource>, enabled: bool) returns (written: seq<string>)
    ensures written == ["PRAGMA foreign_keys=OFF;", "BEGIN TRANSACTION;"] + MergedBody(sources, enabled) + ["COMMIT;"]
  {
    var body := MergeSources(sources, enabled);
    written := ["PRAGMA foreign_keys=OFF;", "BEGIN TRANSACTION;"] + body + ["COMMIT;"];
  }

  /** The loop of `export_merge`: per source its header comment, then its rewritten statements. */
  method MergeSources(sources: seq<DumpSource>, enabled: bool) returns (body: seq<string>)
    ensures body == MergedBody(sources, enabled)
  {
    body := [];
    for i := 0 to |sources|
      invariant body == MergedBody(sources[..i], enabled)
    {
      var stmts := IterdumpPrefixed(sources[i].dump, sources[i].prefix, enabled);
      MergedBodyStep(sources, i, enabled);
      body := body + [SourceHeader(sources[i])] + stmts;
    }
    assert sources[..|sources|] == sources;
  }

  // ---------------------------------------------------------------------
  // d1_filter_line
  // ---------------------------------------------------------------------

  /** `END_SEMI_RE.search(text)` on a trimmed line: it ends with `END`, optional whitespace, `;`. */
  predicate EndsBlock(text: string)
  {
    |text| >= 1 && text[|text| - 1] == ';'
    && var u := text[..|text| - 1];
       var j := |u| - TrailingRun(u);
       j >= 3 && Upper(u[j - 3..j]) == "END" && BoundaryBefore(u, j - 3)
  }

  /** The length of the whitespace run ending the string. */
  function TrailingRun(s: string): (n: nat)
    ensures n <= |s|
  {
    if s != [] && IsSpace(s[|s| - 1]) then 1 + TrailingRun(s[..|s| - 1]) else 0
  }

  /** `_fts(?:\b|_)` at `j`. */
  predicate FtsSuffixAt(s: string, j: nat)
  {
    j + 4 <= |s| && Upper(s[j..j + 4]) == "_FTS" && (BoundaryAfter(s, j + 4) || s[j + 4] == '_')
  }

  /** `[A-Za-z0-9_]*_fts(?:\b|_)` at `k`. */
  predicate FtsTailAt(s: string, k: nat)
  {
    exists j :: k <= j <= |s| && FtsSuffixAt(s, j) && (forall m :: k <= m < j ==> IsWordChar(s[m]))
  }

  /** `__[A-Za-z0-9_]*_fts(?:\b|_)` searched anywhere. */
  predicate HasFtsObjectName(s: string)
  {
    exists i :: 0 <= i && i + 2 <= |s| && s[i] == '_' && s[i + 1] == '_' && FtsTailAt(s, i + 2)
  }

  /** A suffix word (`_fts_data\b` and the like), searched anywhere with no boundary before it. */
  predicate HasSuffixWord(s: string, w: string)
  {
    exists i :: 0 <= i <= |s| && KwAt(s, i, w) && BoundaryAfter(s, i + |w|)
  }

  /** `\btokenize\s*=` searched anywhere. */
  predicate HasTokenize(s: string)
  {
    exists i :: 0 <= i <= |s| && BoundaryBefore(s, i) && KwAt(s, i, "TOKENIZE")
                && i + 8 + SpaceRun(s, i + 8) < |s| && s[i + 8 + SpaceRun(s, i + 8)] == '='
  }

  /** FTS_SKIP_PATTERNS_D1: a full-text table, its shadow tables or its options. */
  predicate IsFtsLine(s: string)
  {
    HasFtsObjectName(s) || ContainsPhrase(s, ["FTS5"]) || HasTokenize(s)
    || HasSuffixWord(s, "_FTS_DATA") || HasSuffixWord(s, "_FTS_IDX")
    || HasSuffixWord(s, "_FTS_DOCSIZE") || HasSuffixWord(s, "_FTS_CONFIG")
  }

  /** `(?:"?|\[?|`?)sqlite_sequence(?:"?|\]?|`?)\b` at `k`. */
  predicate SequenceNameAt(s: string, k: nat)
    requires k <= |s|
  {
    var start := if k < |s| && (s[k] == '"' || s[k] == '[' || s[k] == '`') then k + 1 else k;
    KwAt(s, start, "SQLITE_SEQUENCE") && BoundaryAfter(s, start + 15)
  }

  /** `^\s*<words>\s+[(?:IF\s+NOT\s+EXISTS\s+)]` followed by sqlite_sequence. */
  predicate SequenceStatement(s: string, words: seq<string>, optionalIne: bool)
    requires words != []
  {
    var h := PhraseWs(s, 0, words);
    h.Some? &&
    (SequenceNameAt(s, h.value)
     || (optionalIne && PhraseWs(s, h.value, IfNotExists).Some? && SequenceNameAt(s, PhraseWs(s, h.value, IfNotExists).value)))
  }

  /** SQLITE_MASTER_MUTATION_RE_D1 */
  predicate IsMasterMutation(s: string)
  {
    StartsWithPhrase(s, ["INSERT", "INTO", "SQLITE_MASTER"]) || StartsWithPhrase(s, ["DELETE", "FROM", "SQLITE_MASTER"])
    || StartsWithPhrase(s, ["UPDATE", "SQLITE_MASTER"])
  }

  /** CREATE_OBJ_ANYWHERE_RE_D1 */
  predicate CreatesObjectAnywhere(s: string)
  {
    ContainsPhrase(s, ["CREATE", "TRIGGER"]) || ContainsPhrase(s, ["CREATE", "VIEW"]) || ContainsPhrase(s, ["CREATE", "VIRTUAL", "TABLE"])
  }

  /** D1_SKIP_PATTERNS as written: PRAGMA at the start, the transaction words anywhere in the line. */
  predicate IsControlLineAsWritten(s: string)
  {
    StartsWithPhrase(s, ["PRAGMA"]) || ContainsPhrase(s, ["BEGIN", "TRANSACTION"]) || ContainsPhrase(s, ["COMMIT"])
    || ContainsPhrase(s, ["ROLLBACK"]) || ContainsPhrase(s, ["SAVEPOINT"]) || ContainsPhrase(s, ["RELEASE", "SAVEPOINT"])
    || ContainsPhrase(s, ["VACUUM"])
  }

  /** The control statements D1 refuses, recognised where a statement starts. */
  predicate IsControlLine(s: string)
  {
    StartsWithPhrase(s, ["PRAGMA"]) || StartsWithPhrase(s, ["BEGIN", "TRANSACTION"]) || StartsWithPhrase(s, ["COMMIT"])
    || StartsWithPhrase(s, ["ROLLBACK"]) || StartsWithPhrase(s, ["SAVEPOINT"]) || StartsWithPhrase(s, ["RELEASE", "SAVEPOINT"])
    || StartsWithPhrase(s, ["VACUUM"])
  }

  /** Every check of `d1_filter_line` but the trigger ones and the control words. */
  predicate IsRefusedObject(text: string)
  {
    (text != [] && text[0] == '.') || IsFtsLine(text)
    || StartsWithPhrase(text, ["CREATE", "VIEW"]) || StartsWithPhrase(text, ["CREATE", "VIRTUAL", "TABLE"])
    || IsMasterMutation(text) || CreatesObjectAnywhere(text)
    || SequenceStatement(text, ["CREATE", "TABLE"], true) || SequenceStatement(text, ["INSERT", "INTO"], false)
  }

  /** The control words as the filter recognises them: anywhere in the line as written, at its start when `anchored`. */
  predicate IsControl(s: string, anchored: bool)
  {
    if anchored then IsControlLine(s) else IsControlLineAsWritten(s)
  }

  /** A trimmed line that D1 accepts under the given reading of the control patterns. */
  predicate Accepted(x: string, anchored: bool)
  {
    x != [] && !IsRefusedObject(x) && !StartsWithPhrase(x, ["CREATE", "TRIGGER"]) && !IsControl(x, anchored)
  }

  /**
   * `d1_filter_line(line, in_trigger_block)` as written; `anchored` instead
   * recognises the control words only where the statement starts.
   */
  function FilterLine(line: string, inTrigger: bool, anchored: bool): (r: (Option<string>, bool))
    ensures inTrigger ==> r.0.None? && (r.1 <==> !EndsBlock(Strip(line)))
    ensures r.0.Some? ==> r.0.value == Strip(line) && r.1 == inTrigger && !inTrigger
    ensures r.0.Some? ==> Accepted(Strip(line), anchored)
    ensures !inTrigger && Accepted(Strip(line), anchored) ==> r == (Some(Strip(line)), false)
    ensures (!inTrigger && Strip(line) != [] && Strip(line)[0] != '.' && !IsFtsLine(Strip(line))
             && StartsWithPhrase(Strip(line), ["CREATE", "TRIGGER"])) ==> r.0.None? && (r.1 <==> !EndsBlock(Strip(line)))
    ensures !inTrigger && r.1 ==> StartsWithPhrase(Strip(line), ["CREATE", "TRIGGER"]) && !EndsBlock(Strip(line))
  {
    var text := Strip(line);
    if text == [] then (None, inTrigger)
    else if inTrigger then (None, !EndsBlock(text))
    else if text[0] == '.' || IsFtsLine(text) then (None, inTrigger)
    else if StartsWithPhrase(text, ["CREATE", "TRIGGER"]) then (None, !EndsBlock(text))
    else if IsRefusedObject(text) then (None, inTrigger)
    else if IsControl(text, anchored) then (None, inTrigger)
    else (Some(text), inTrigger)
  }

  /** `d1_filter_line` as written. */
  function D1FilterLine(line: string, inTrigger: bool): (r: (Option<string>, bool))
    ensures r.0.Some? ==> !IsControlLineAsWritten(Strip(line))
    ensures !inTrigger && Accepted(Strip(line), false) ==> r == (Some(Strip(line)), false)
  {
    FilterLine(line, inTrigger, false)
  }

  /** The corrected filter: the same checks, the control words recognised at the start of the statement. */
  function D1FilterLineCorrected(line: string, inTrigger: bool): (r: (Option<string>, bool))
    ensures r.0.Some? ==> Strip(line) != [] && !IsRefusedObject(Strip(line)) && !IsControlLine(Strip(line))
                          && !StartsWithPhrase(Strip(line), ["CREATE", "TRIGGER"])
    ensures !inTrigger && Accepted(Strip(line), true) ==> r == (Some(Strip(line)), false)
  {
    FilterLine(line, inTrigger, true)
  }

  /**
   * The lines kept from a stream of lines, and the trigger flag after it;
   * `anchored` false is the program as written, true the corrected filter.
   */
  function D1FilterAll(lines: seq<string>, inTrigger: bool, anchored: bool): (seq<string>, bool)
  {
    if lines == [] then ([], inTrigger)
    else
      var before := D1FilterAll(lines[..|lines| - 1], inTrigger, anchored);
      var step := FilterLine(lines[|lines| - 1], before.1, anchored);
      (before.0 + (if step.0.Some? then [step.0.value] else []), step.1)
  }

  lemma D1FilterAllStep(lines: seq<string>, i: nat, inTrigger: bool, anchored: bool)
    requires i < |lines|
    ensures var before := D1FilterAll(lines[..i], inTrigger, anchored);
            var step := FilterLine(lines[i], before.1, anchored);
            D1FilterAll(lines[..i + 1], inTrigger, anchored) == (before.0 + (if step.0.Some? then [step.0.value] else []), step.1)
  {
    assert lines[..i + 1][..i] == lines[..i];
  }


  /** Inside a trigger block nothing is written until a line ends the block, under either reading. */
  lemma {:induction false} TriggerBodySwallowed(lines: seq<string>, anchored: bool)
    requires forall i :: 0 <= i < |lines| ==> !EndsBlock(Strip(lines[i]))
    ensures D1FilterAll(lines, true, anchored) == ([], true)
  {
    if lines != [] {
      var init, last := lines[..|lines| - 1], lines[|lines| - 1];
      assert forall i :: 0 <= i < |init| ==> init[i] == lines[i];
      TriggerBodySwallowed(init, anchored);
      TriggerLineSwallowed(last, anchored);
      var before := D1FilterAll(init, true, anchored);
      var step := FilterLine(last, before.1, anchored);
      assert step.0.None? && step.1;
      assert D1FilterAll(lines, true, anchored) == (before.0 + [], step.1);
      assert before.0 + [] == [];
    }
  }

  lemma TriggerLineSwallowed(line: string, anchored: bool)
    requires !EndsBlock(Strip(line))
    ensures FilterLine(line, true, anchored) == (None, true)
  {
  }

  /**
   * Every line written is a trimmed input line that D1 accepts; as written
   * (`anchored` false) no kept line holds a control word anywhere.
   */
  lemma {:induction false} D1KeepsOnlyAccepted(lines: seq<string>, inTrigger: bool, anchored: bool)
    ensures forall x :: x in D1FilterAll(lines, inTrigger, anchored).0 ==>
              exists l :: l in lines && x == Strip(l) && Accepted(x, anchored)
  {
    if lines != [] {
      var init := lines[..|lines| - 1];
      D1KeepsOnlyAccepted(init, inTrigger, anchored);
      assert forall l :: l in init ==> l in lines;
    }
  }

  /** Outside a trigger block, a stream of accepted lines is written whole: every line, trimmed, in order. */
  lemma {:induction false} D1KeepsAccepted(lines: seq<string>, anchored: bool)
    requires forall i :: 0 <= i < |lines| ==> Accepted(Strip(lines[i]), anchored)
    ensures var r := D1FilterAll(lines, false, anchored);
            !r.1 && |r.0| == |lines| && forall i :: 0 <= i < |lines| ==> r.0[i] == Strip(lines[i])
  {
    if lines != [] {
      var init := lines[..|lines| - 1];
      assert forall i :: 0 <= i < |init| ==> init[i] == lines[i];
      D1KeepsAccepted(init, anchored);
      KeepsAcceptedLast(lines, anchored);
      var kept := D1FilterAll(init, false, anchored).0;
      var r := kept + [Strip(lines[|lines| - 1])];
      forall i | 0 <= i < |lines| ensures r[i] == Strip(lines[i]) {
        if i < |init| {
          assert r[i] == kept[i];
        }
      }
    }
  }

  /** The last line of a stream, accepted and after a clear flag, is appended. */
  lemma KeepsAcceptedLast(lines: seq<string>, anchored: bool)
    requires lines != [] && Accepted(Strip(lines[|lines| - 1]), anchored)
    requires !D1FilterAll(lines[..|lines| - 1], false, anchored).1
    ensures D1FilterAll(lines, false, anchored)
            == (D1FilterAll(lines[..|lines| - 1], false, anchored).0 + [Strip(lines[|lines| - 1])], false)
  {
  }

  /** The statements of one source: each split into lines (`splitlines() or [stmt]`), filtered with the flag threaded through. */
  function D1Statements(stmts: seq<string>, inTrigger: bool, anchored: bool): (seq<string>, bool)
  {
    if stmts == [] then ([], inTrigger)
    else
      var before := D1Statements(stmts[..|stmts| - 1], inTrigger, anchored);
      var step := D1FilterAll(Split(stmts[|stmts| - 1], '\n'), before.1, anchored);
      (before.0 + step.0, step.1)
  }

  /** The D1 dump: per source its header, then its filtered statements; the trigger flag carries over between sources. */
  function D1Merged(sources: seq<DumpSource>, enabled: bool, anchored: bool): (seq<string>, bool)
  {
    if sources == [] then ([], false)
    else
      var s := sources[|sources| - 1];
      var before := D1Merged(sources[..|sources| - 1], enabled, anchored);
      var step := D1Statements(RewriteAll(s.dump, s.prefix, enabled, false).0, before.1, anchored);
      (before.0 + [SourceHeader(s)] + step.0, step.1)
  }

  method FilterLines(lines: seq<string>, inTrigger: bool, anchored: bool) returns (out: seq<string>, flag: bool)
    ensures out == D1FilterAll(lines, inTrigger, anchored).0 && flag == D1FilterAll(lines, inTrigger, anchored).1
  {
    out, flag := [], inTrigger;
    for i := 0 to |lines|
      invariant out == D1FilterAll(lines[..i], inTrigger, anchored).0
      invariant flag == D1FilterAll(lines[..i], inTrigger, anchored).1
    {
      D1FilterAllStep(lines, i, inTrigger, anchored);
      var step := FilterLine(lines[i], flag, anchored);
      var filtered := step.0;
      flag := step.1;
      if filtered.Some? {
        out := out + [filtered.value];
      }
    }
    assert lines[..|lines|] == lines;
  }

  method FilterStatements(stmts: seq<string>, inTrigger: bool, anchored: bool) returns (out: seq<string>, flag: bool)
    ensures out == D1Statements(stmts, inTrigger, anchored).0 && flag == D1Statements(stmts, inTrigger, anchored).1
  {
    out, flag := [], inTrigger;
    for i := 0 to |stmts|
      invariant out == D1Statements(stmts[..i], inTrigger, anchored).0
      invariant flag == D1Statements(stmts[..i], inTrigger, anchored).1
    {
      assert stmts[..i + 1][..i] == stmts[..i];
      var kept: seq<string>;
      kept, flag := FilterLines(Split(stmts[i], '\n'), flag, anchored);
      out := out + kept;
    }
    assert stmts[..|stmts|] == stmts;
  }

  /**
   * `export_merge_d1_compatible(sources, output_sql, prefix_enabled)`: the lines
   * written, as written when `anchored` is false and corrected when it is true.
   */
  method ExportMergeD1(sources: seq<DumpSource>, enabled: bool, anchored: bool) returns (written: seq<string>)
    ensures written == D1Merged(sources, enabled, anchored).0
  {
    written := [];
    var inTrigger := false;
    for i := 0 to |sources|
      invariant written == D1Merged(sources[..i], enabled, anchored).0
      invariant inTrigger == D1Merged(sources[..i], enabled, anchored).1
    {
      assert sources[..i + 1][..i] == sources[..i];
      var stmts := IterdumpPrefixed(sources[i].dump, sources[i].prefix, enabled);
      var kept: seq<string>;
      kept, inTrigger := FilterStatements(stmts, inTrigger, anchored);
      written := written + [SourceHeader(sources[i])] + kept;
    }
    assert sources[..|sources|] == sources;
  }

  // ---------------------------------------------------------------------
  // The control words searched anywhere
  // ---------------------------------------------------------------------

  /** A data row whose text holds the word "commit". */
  const CommitRow: string := "INSERT INTO t VALUES('commit');"

  lemma CommitRowTrimmed()
    ensures Strip(CommitRow) == CommitRow
  {
    StripNoop(CommitRow);
  }

  /** The filter as written drops the row: `\bCOMMIT\b` is found inside the quoted text. */
  lemma AsWrittenDropsCommitRow()
    ensures D1FilterLine(CommitRow, false).0.None?
  {
    CommitRowTrimmed();
    var s := CommitRow;
    assert s[22..28] == "commit";
    assert Upper(s[22..28]) == "COMMIT";
    assert BoundaryBefore(s, 22) && PhraseEnd(s, 22, ["COMMIT"]) == Some(28) && BoundaryAfter(s, 28);
    assert ContainsPhrase(s, ["COMMIT"]);
  }

  /** The character at `i` as `str.upper()` writes it, ASCII letters only. */
  function UpperAt(s: string, i: nat): char
    requires i < |s|
  {
    if IsAsciiLower(s[i]) then (s[i] as int - 32) as char else s[i]
  }

  /** A keyword match fixes each character of the line it covers. */
  lemma KwChar(s: string, p: nat, kw: string, k: nat)
    requires KwAt(s, p, kw) && k < |kw|
    ensures UpperAt(s, p + k) == kw[k]
    ensures !IsAsciiUpper(kw[k]) ==> s[p + k] == kw[k]
  {
    assert Upper(s[p..p + |kw|])[k] == kw[k];
  }

  /** Every word of a matched phrase is matched somewhere in the line. */
  lemma {:induction false} PhraseWord(s: string, i: nat, words: seq<string>, w: nat)
    requires words != [] && PhraseEnd(s, i, words).Some? && w < |words|
    ensures exists p :: i <= p <= |s| && KwAt(s, p, words[w])
    decreases |words|
  {
    if w > 0 {
      var j := i + |words[0]|;
      PhraseWord(s, j + SpaceRun(s, j), words[1..], w - 1);
    }
  }

  /** A word holding a character the line lacks cannot be matched in it. */
  lemma MissingChar(s: string, words: seq<string>, w: nat, k: nat, i: nat)
    requires words != [] && w < |words| && k < |words[w]| && !IsAsciiUpper(words[w][k]) && words[w][k] !in s
    ensures PhraseEnd(s, i, words).None?
  {
    if PhraseEnd(s, i, words).Some? {
      PhraseWord(s, i, words, w);
      var p :| i <= p <= |s| && KwAt(s, p, words[w]);
      KwChar(s, p, words[w], k);
    }
  }

  /** Without a `CR` pair in any case, no CREATE is found anywhere. */
  lemma NoCreateWithoutPair(s: string, words: seq<string>)
    requires words != [] && |words[0]| >= 2 && words[0][..2] == "CR"
    requires forall i :: 0 <= i < |s| - 1 && UpperAt(s, i) == 'C' ==> UpperAt(s, i + 1) != 'R'
    ensures !ContainsPhrase(s, words)
  {
    if ContainsPhrase(s, words) {
      var i :| 0 <= i <= |s| && BoundaryBefore(s, i) && PhraseEnd(s, i, words).Some?
               && BoundaryAfter(s, PhraseEnd(s, i, words).value);
      KwChar(s, i, words[0], 0);
      KwChar(s, i, words[0], 1);
    }
  }

  lemma CommitRowSingleLine()
    ensures '\n' !in CommitRow
  {
  }

  lemma CommitRowChars()
    ensures '_' !in CommitRow && '5' !in CommitRow && '=' !in CommitRow && CommitRow[0] == 'I'
  {
  }

  /** The row's only `c` is the one of "commit", followed by `o`. */
  lemma CommitRowNoPair()
    ensures forall i :: 0 <= i < |CommitRow| - 1 && UpperAt(CommitRow, i) == 'C' ==> UpperAt(CommitRow, i + 1) != 'R'
  {
    var s := CommitRow;
    assert 'C' !in s && 'c' !in s[..22] && 'c' !in s[23..] && s[23] == 'o';
  }

  /** A phrase whose first word does not start with `I` does not start the row. */
  lemma NotAtStart(words: seq<string>)
    requires words != [] && words[0] != [] && words[0][0] != 'I'
    ensures !StartsWithPhrase(CommitRow, words)
  {
    CommitRowChars();
    if PhraseEnd(CommitRow, 0, words).Some? {
      KwChar(CommitRow, 0, words[0], 0);
    }
  }

  /** No full-text pattern is found in the row. */
  lemma CommitRowNotFts()
    ensures !IsFtsLine(CommitRow)
  {
    var s := CommitRow;
    CommitRowChars();
    assert !HasFtsObjectName(s);
    forall i | 0 <= i <= |s| ensures PhraseEnd(s, i, ["FTS5"]).None? {
      MissingChar(s, ["FTS5"], 0, 3, i);
    }
    assert !HasTokenize(s);
    forall w | w in ["_FTS_DATA", "_FTS_IDX", "_FTS_DOCSIZE", "_FTS_CONFIG"] ensures !HasSuffixWord(s, w) {
      if HasSuffixWord(s, w) {
        var i :| 0 <= i <= |s| && KwAt(s, i, w) && BoundaryAfter(s, i + |w|);
        KwChar(s, i, w, 0);
      }
    }
  }

  /** The row creates no object D1 refuses and touches neither sqlite_master nor sqlite_sequence. */
  lemma CommitRowNotRefused()
    ensures !IsRefusedObject(CommitRow)
  {
    CommitRowChars();
    CommitRowNotFts();
    NotAtStart(["CREATE", "VIEW"]);
    NotAtStart(["CREATE", "VIRTUAL", "TABLE"]);
    CommitRowNotMaster();
    CommitRowCreatesNothing();
    CommitRowNoSequence();
  }

  lemma CommitRowNotMaster()
    ensures !IsMasterMutation(CommitRow)
  {
    CommitRowChars();
    MissingChar(CommitRow, ["INSERT", "INTO", "SQLITE_MASTER"], 2, 6, 0);
    NotAtStart(["DELETE", "FROM", "SQLITE_MASTER"]);
    NotAtStart(["UPDATE", "SQLITE_MASTER"]);
  }

  lemma CommitRowCreatesNothing()
    ensures !CreatesObjectAnywhere(CommitRow)
  {
    CommitRowNoPair();
    NoCreateWithoutPair(CommitRow, ["CREATE", "TRIGGER"]);
    NoCreateWithoutPair(CommitRow, ["CREATE", "VIEW"]);
    NoCreateWithoutPair(CommitRow, ["CREATE", "VIRTUAL", "TABLE"]);
  }

  /** sqlite_sequence is named nowhere in the row. */
  lemma CommitRowNoSequence()
    ensures forall k :: 0 <= k <= |CommitRow| ==> !SequenceNameAt(CommitRow, k)
  {
    forall k | 0 <= k <= |CommitRow| ensures !SequenceNameAt(CommitRow, k) {
      NoSequenceAt(CommitRow, k);
    }
  }

  /** A line without an underscore names sqlite_sequence nowhere. */
  lemma NoSequenceAt(s: string, k: nat)
    requires k <= |s| && '_' !in s
    ensures !SequenceNameAt(s, k)
  {
    var start := if k < |s| && (s[k] == '"' || s[k] == '[' || s[k] == '`') then k + 1 else k;
    if KwAt(s, start, "SQLITE_SEQUENCE") {
      KwChar(s, start, "SQLITE_SEQUENCE", 6);
    }
  }

  /** The row does not start with a control word. */
  lemma CommitRowNotControl()
    ensures !IsControlLine(CommitRow)
  {
    NotAtStart(["PRAGMA"]);
    NotAtStart(["BEGIN", "TRANSACTION"]);
    NotAtStart(["COMMIT"]);
    NotAtStart(["ROLLBACK"]);
    NotAtStart(["SAVEPOINT"]);
    NotAtStart(["RELEASE", "SAVEPOINT"]);
    NotAtStart(["VACUUM"]);
  }

  /** The corrected filter keeps the row the filter as written drops. */
  lemma CorrectedKeepsCommitRow()
    ensures D1FilterLineCorrected(CommitRow, false) == (Some(CommitRow), false)
  {
    CommitRowTrimmed();
    CommitRowNotFts();
    CommitRowNotRefused();
    CommitRowNotControl();
    NotAtStart(["CREATE", "TRIGGER"]);
  }

  /** One statement holding the row: the pipeline as written writes nothing for it. */
  lemma AsWrittenPipelineDropsCommitRow()
    ensures D1Statements([CommitRow], false, false) == ([], false)
  {
    CommitRowSingleLine();
    SingleLineStatement(CommitRow, false);
    AsWrittenDropsCommitRow();
    NotAtStart(["CREATE", "TRIGGER"]);
    CommitRowTrimmed();
    assert FilterLine(CommitRow, false, false) == D1FilterLine(CommitRow, false);
  }

  /** The corrected pipeline writes the row through. */
  lemma CorrectedPipelineKeepsCommitRow()
    ensures D1Statements([CommitRow], false, true) == ([CommitRow], false)
  {
    CommitRowSingleLine();
    SingleLineStatement(CommitRow, true);
    CorrectedKeepsCommitRow();
  }

  /** A statement of one line is written as the line filter decides for that line. */
  lemma SingleLineStatement(line: string, anchored: bool)
    requires '\n' !in line
    ensures var step := FilterLine(line, false, anchored);
            D1Statements([line], false, anchored) == (if step.0.Some? then [step.0.value] else [], step.1)
  {
    SplitWithoutSep(line, '\n');
    var step := FilterLine(line, false, anchored);
    var kept := if step.0.Some? then [step.0.value] else [];
    assert [line][..0] == [];
    assert D1FilterAll([line], false, anchored) == ([] + kept, step.1);
    assert [] + kept == kept;
    assert D1Statements([line], false, anchored) == ([] + kept, step.1);
  }
}
