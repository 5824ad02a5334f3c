/**
 * Small request helpers of the HTTP server (serve.py:23-57, 113-118), their
 * copies in the serverless worker (cf_worker/src/entry.py:101-129), and the
 * `--langs` parsing of the two build scripts.
 */
module Helpers {
  import opened Common

  // ---------------------------------------------------------------------
  // Python's int(str), clamping and paging
  // ---------------------------------------------------------------------

  /** The digits part `int()` accepts: digits, with single underscores allowed between two digits. */
  predicate IsIntBody(r: string)
  {
    |r| > 0 && IsDigit(r[0]) && IsDigit(r[|r| - 1])
    && (forall k :: 0 <= k < |r| ==> IsDigit(r[k]) || r[k] == '_')
    && (forall k :: 0 <= k < |r| - 1 && r[k] == '_' ==> r[k + 1] != '_')
  }

  function DropUnderscores(r: string): (d: string)
    ensures (forall k :: 0 <= k < |r| ==> IsDigit(r[k]) || r[k] == '_') ==> forall k :: 0 <= k < |d| ==> IsDigit(d[k])
    ensures (forall k :: 0 <= k < |r| ==> IsDigit(r[k])) ==> d == r
  {
    if r == [] then [] else (if r[0] == '_' then [] else [r[0]]) + DropUnderscores(r[1..])
  }

  /** Python's `int(s)` on a string: surrounding whitespace, an optional sign, then an integer body; None where it raises. */
  function ParseInt(s: string): Option<int>
  {
    ParseTrimmed(Strip(s))
  }

  /** `int()` once the surrounding whitespace is gone. */
  function ParseTrimmed(t: string): Option<int>
  {
    if |t| > 0 && (t[0] == '-' || t[0] == '+') then
      if IsIntBody(t[1..]) then
        var v: int := DigitsValue(DropUnderscores(t[1..]));
        Some(if t[0] == '-' then -v else v)
      else None
    else if IsIntBody(t) then Some(DigitsValue(DropUnderscores(t)) as int)
    else None
  }

  /** `int(str(i)) == i`: the parser reads back every decimal numeral `str` writes. */
  lemma ParseIntDecimal(i: int)
    ensures ParseInt(IntToDecimal(i)) == Some(i)
  {
    if i < 0 {
      NegativeDecimal(i);
    } else {
      ParseNatural(i);
    }
  }

  lemma NegativeDecimal(i: int)
    requires i < 0
    ensures ParseInt(IntToDecimal(i)) == Some(i)
  {
    var n: nat := -i;
    var d := NatToDecimal(n);
    NatToDecimalRoundTrip(n);
    ParseNegative(d);
    assert IntToDecimal(i) == "-" + d;
  }

  lemma ParseNatural(n: nat)
    ensures ParseInt(NatToDecimal(n)) == Some(n)
  {
    var d := NatToDecimal(n);
    StripNoop(d);
    DigitsAreIntBody(d);
    NatToDecimalRoundTrip(n);
    assert !(d[0] == '-' || d[0] == '+');
    assert ParseTrimmed(d) == Some(n);
  }

  /** A minus sign followed by digits reads back as the negated digit value. */
  lemma ParseNegative(d: string)
    requires AllDigits(d)
    ensures ParseInt("-" + d) == Some(-(DigitsValue(d) as int))
  {
    StripSigned(d);
    NegatedDigits(d);
  }

  /** A minus sign followed by digits has no whitespace to strip. */
  lemma StripSigned(d: string)
    requires AllDigits(d)
    ensures Strip("-" + d) == "-" + d
  {
    var s := "-" + d;
    assert s[|s| - 1] == d[|d| - 1];
    StripNoop(s);
  }

  lemma NegatedDigits(d: string)
    requires AllDigits(d)
    ensures ParseTrimmed("-" + d) == Some(-(DigitsValue(d) as int))
  {
    assert ("-" + d)[1..] == d;
    DigitsAreIntBody(d);
  }

  /** A run of digits is an integer body and has no underscore to drop. */
  lemma DigitsAreIntBody(d: string)
    requires AllDigits(d)
    ensures IsIntBody(d) && DropUnderscores(d) == d
  {
  }

  /** `max(min_value, min(max_value, iv))` */
  function Clamp(iv: int, lo: int, hi: int): int
  {
    if iv > hi then (if hi < lo then lo else hi) else if iv < lo then lo else iv
  }

  /**
   * `as_int(value, default, min_value, max_value)` (serve.py:23-28, and the
   * worker's copy at cf_worker/src/entry.py:101-106): the default when `value`
   * does not parse, the parsed value clamped into the range otherwise.
   */
  function AsInt(value: string, default: int, lo: int, hi: int): (r: int)
    ensures ParseInt(value).None? ==> r == default
    ensures ParseInt(value).Some? && lo <= hi ==> lo <= r <= hi
    ensures ParseInt(value).Some? && lo <= ParseInt(value).value <= hi ==> r == ParseInt(value).value
    ensures ParseInt(value).Some? && ParseInt(value).value < lo ==> r == lo
    ensures ParseInt(value).Some? && lo <= hi < ParseInt(value).value ==> r == hi
  {
    match ParseInt(value)
    case None => default
    case Some(iv) => Clamp(iv, lo, hi)
  }

  /**
   * A query string, by the first value of each parameter (what `parse_qs`
   * yields, indexed at 0).
   */
  type Query = map<string, string>

  /** `qv(query, key, default)`: the first value, or the default when absent or empty, trimmed. */
  function Qv(query: Query, key: string, default: string): string
  {
    Strip(if key in query && query[key] != "" then query[key] else default)
  }

  const MaxPage := 100000
  const FirstPage: string := "1"

  /**
   * `paging(query, default_size, max_size)` (serve.py:40-44; the worker's copy at
   * cf_worker/src/entry.py:109-112 computes the same): page and page size
   * clamped, and the row offset of the page.
   */
  function Paging(query: Query, defaultSize: int, maxSize: int): (r: (int, int, int))
    ensures 1 <= r.0 <= MaxPage
    ensures 1 <= defaultSize <= maxSize ==> 1 <= r.1 <= maxSize
    ensures r.2 == (r.0 - 1) * r.1
  {
    var page := AsInt(Qv(query, "page", FirstPage), 1, 1, MaxPage);
    var size := AsInt(Qv(query, "page_size", IntToDecimal(defaultSize)), defaultSize, 1, maxSize);
    (page, size, (page - 1) * size)
  }

  /** A page number written in the query is the page served, when it is in range. */
  lemma PagingReadsPage(query: Query, defaultSize: int, maxSize: int, p: int)
    requires 1 <= p <= MaxPage && "page" in query && query["page"] == IntToDecimal(p)
    ensures Paging(query, defaultSize, maxSize).0 == p
  {
    ParseIntDecimal(p);
    assert Qv(query, "page", FirstPage) == Strip(IntToDecimal(p));
    StripNoop(IntToDecimal(p));
  }

  /** `(total + page_size - 1) // page_size if page_size > 0 else 0` */
  function TotalPages(total: int, size: int): int
  {
    if size > 0 then (total + size - 1) / size else 0
  }

  /** The page count is the ceiling of `total / page_size`: enough pages for every row, and no empty last page. */
  lemma TotalPagesIsCeiling(total: nat, size: int)
    requires size > 0
    ensures TotalPages(total, size) * size >= total
    ensures total > 0 ==> (TotalPages(total, size) - 1) * size < total
    ensures total == 0 ==> TotalPages(total, size) == 0
  {
    var a := total + size - 1;
    var q := a / size;
    assert a == q * size + a % size;
    assert q * size - size == (q - 1) * size;
  }

  /**
   * `with_paging_meta(payload, page, page_size, total)` (serve.py:47-53; the
   * worker's copy at cf_worker/src/entry.py:115-120 sets the same four keys):
   * the payload with the paging keys set and every other key unchanged.
   */
  function WithPagingMeta(payload: map<string, Json>, page: int, size: int, total: int): (r: map<string, Json>)
    ensures r.Keys == payload.Keys + {"page", "page_size", "total", "total_pages"}
    ensures forall k :: k in payload && k !in {"page", "page_size", "total", "total_pages"} ==> r[k] == payload[k]
    ensures r["page"] == Int(page) && r["page_size"] == Int(size) && r["total"] == Int(total)
    ensures r["total_pages"] == Int(TotalPages(total, size))
  {
    payload["page" := Int(page)]["page_size" := Int(size)]["total" := Int(total)]["total_pages" := Int(TotalPages(total, size))]
  }

  // ---------------------------------------------------------------------
  // Language codes
  // ---------------------------------------------------------------------

  const LangAlias: map<string, string> := map[
    "ZH" := "CHS", "ZH_CN" := "CHS", "CN" := "CHS", "CHS" := "CHS",
    "EN" := "EN", "EN_US" := "EN",
    "JP" := "JP", "JA" := "JP", "JA_JP" := "JP",
    "KR" := "KR", "KO" := "KR", "KO_KR" := "KR"]

  const SupportedLangs: set<string> := {"CHS", "EN", "JP", "KR"}

  /** `(raw or "").strip().upper().replace("-", "_")` */
  function LangToken(raw: string): string
  {
    ReplaceChar(Upper(Strip(raw)), '-', "_")
  }

  /** `normalize_lang(raw, default)` (serve.py:113-118): an alias or a supported code, else the default. */
  function NormalizeLang(raw: string, default: string): (r: string)
    ensures r in SupportedLangs || r == default
    ensures LangToken(raw) in LangAlias ==> r == LangAlias[LangToken(raw)]
    ensures LangToken(raw) !in LangAlias ==> r == default
  {
    var token := LangToken(raw);
    if token == [] then default
    else
      var mapped := if token in LangAlias then LangAlias[token] else token;
      if mapped in SupportedLangs then mapped else default
  }

  /** A code of upper-case ASCII letters is its own token. */
  lemma CodeIsOwnToken(code: string)
    requires forall k :: 0 <= k < |code| ==> IsAsciiUpper(code[k])
    ensures LangToken(code) == code
  {
    StripNoop(code);
    assert Upper(code) == code;
    ReplaceAbsent(code, '-', "_");
  }

  lemma SupportedTokens()
    ensures forall l :: l in SupportedLangs ==> LangToken(l) == l
  {
    forall l | l in SupportedLangs
      ensures LangToken(l) == l
    {
      CodeIsOwnToken(l);
    }
  }

  /** Every supported code is an alias of itself. */
  lemma SupportedAliases()
    ensures forall l :: l in SupportedLangs ==> l in LangAlias && LangAlias[l] == l
  {
    assert LangAlias["CHS"] == "CHS";
    assert LangAlias["EN"] == "EN";
    assert LangAlias["JP"] == "JP";
    assert LangAlias["KR"] == "KR";
  }

  /** Normalising a normalised code changes nothing, as long as the default is itself supported. */
  lemma NormalizeLangIdempotent(raw: string, default: string)
    requires default in SupportedLangs
    ensures NormalizeLang(NormalizeLang(raw, default), default) == NormalizeLang(raw, default)
  {
    var r := NormalizeLang(raw, default);
    SupportedTokens();
    SupportedAliases();
    assert LangToken(r) == r && r in LangAlias;
  }

  /** `normalize_lang(raw)` of the worker (cf_worker/src/entry.py:123-129): English for EN and EN_US, Chinese otherwise. */
  function WorkerNormalizeLang(raw: string): (r: string)
    ensures r == "EN" || r == "CHS"
  {
    var token := LangToken(raw);
    if token == "EN" || token == "EN_US" then "EN" else "CHS"
  }

  /** The worker agrees with the server on English and sends every other language, JP and KR included, to CHS. */
  lemma WorkerNormalizeLangAgrees(raw: string)
    ensures WorkerNormalizeLang(raw) == (if NormalizeLang(raw, "CHS") == "EN" then "EN" else "CHS")
  {
    var token := LangToken(raw);
    if token in LangAlias {
      assert LangAlias[token] == "EN" <==> token == "EN" || token == "EN_US";
    }
  }


  const BuildDbDefaultLangs: seq<string> := ["CHS", "EN"]
  const ModuleDefaultLangs: seq<string> := ["CHS", "EN", "JP", "KR"]

  /** `[x.strip().upper() for x in parts if x.strip()]` */
  function CleanLangs(parts: seq<string>): (langs: seq<string>)
    ensures |langs| <= |parts|
    ensures forall l :: l in langs ==> exists p :: p in parts && Strip(p) != [] && l == Upper(Strip(p))
    ensures forall p :: p in parts && Strip(p) != [] ==> Upper(Strip(p)) in langs
  {
    if parts == [] then []
    else
      var p := parts[|parts| - 1];
      var init := parts[..|parts| - 1];
      assert forall q :: q in parts <==> q in init || q == p;
      CleanLangs(init) + (if Strip(p) != [] then [Upper(Strip(p))] else [])
  }

  /**
   * The comprehension works part by part: cleaning two runs of parts one
   * after the other is cleaning each, in order, so order and repeats are kept.
   */
  lemma {:induction false} CleanLangsAppend(a: seq<string>, b: seq<string>)
    ensures CleanLangs(a + b) == CleanLangs(a) + CleanLangs(b)
    decreases |b|
  {
    if b == [] {
      assert a + b == a;
    } else {
      var init := b[..|b| - 1];
      var p := b[|b| - 1];
      var tail := if Strip(p) != [] then [Upper(Strip(p))] else [];
      assert b == init + [p];
      assert a + b == (a + init) + [p];
      CleanLangsAppend(a, init);
      CleanLangsSnoc(a + init, p);
      CleanLangsSnoc(init, p);
      AppendAssoc(CleanLangs(a), CleanLangs(init), tail);
    }
  }

  /**
   * `parse_langs(raw)`: the comma-separated, trimmed, upper-cased languages,
   * or the defaults when none is given (build_db.py:295-297 with
   * `BuildDbDefaultLangs`, build_module_dbs.py:30-32 with `ModuleDefaultLangs`).
   */
  function ParseLangs(raw: string, fallback: seq<string>): (langs: seq<string>)
    ensures fallback != [] ==> langs != []
    ensures (forall p :: p in Split(raw, ',') ==> Strip(p) == []) ==> langs == fallback
    ensures (exists p :: p in Split(raw, ',') && Strip(p) != []) ==>
              langs != [] && (forall l :: l in langs ==> exists p :: p in Split(raw, ',') && Strip(p) != [] && l == Upper(Strip(p)))
              && (forall p :: p in Split(raw, ',') && Strip(p) != [] ==> Upper(Strip(p)) in langs)
  {
    var tokens := CleanLangs(Split(raw, ','));
    assert tokens != [] ==> tokens[0] in tokens;
    if tokens != [] then tokens else fallback
  }

  /** A normalised language: non-empty, trimmed, upper-case, comma-free. */
  predicate NormalLang(l: string)
  {
    l != [] && Strip(l) == l && NoLower(l) && ',' !in l
  }

  predicate NoLower(l: string)
  {
    forall k :: 0 <= k < |l| ==> !IsAsciiLower(l[k])
  }

  /** Upper-casing leaves a string without lower-case letters unchanged. */
  lemma UpperNoLower(l: string)
    requires NoLower(l)
    ensures Upper(l) == l
  {
  }

  lemma UpperStripNormal(p: string)
    requires Strip(p) != [] && ',' !in p
    ensures NormalLang(Upper(Strip(p)))
  {
    var s := Strip(p);
    StripShape(p);
    var i, j :| 0 <= i <= j <= |p| && s == p[i..j];
    assert forall k :: 0 <= k < |s| ==> s[k] in p;
    UpperTrimmed(s);
  }

  /** Upper-casing a trimmed, comma-free text gives a normalised language. */
  lemma UpperTrimmed(s: string)
    requires s != [] && !IsSpace(s[0]) && !IsSpace(s[|s| - 1]) && ',' !in s
    ensures NormalLang(Upper(s))
  {
    var u := Upper(s);
    assert !IsSpace(u[0]) && !IsSpace(u[|u| - 1]);
    StripNoop(u);
    assert ',' !in u by {
      forall k | 0 <= k < |u| ensures u[k] != ',' {
        assert s[k] != ',';
      }
    }
  }

  /** The defaults are themselves normalised. */
  lemma DefaultLangsNormal()
    ensures forall l :: l in BuildDbDefaultLangs ==> NormalLang(l)
    ensures forall l :: l in ModuleDefaultLangs ==> NormalLang(l)
  {
    forall l | l in ModuleDefaultLangs ensures NormalLang(l) {
      StripNoop(l);
    }
  }

  lemma {:induction false} SplitNoSep(a: string, sep: char)
    requires sep !in a
    ensures Split(a, sep) == [a]
  {
    if a != [] {
      SplitNoSep(a[1..], sep);
      assert [a[0]] + a[1..] == a;
    }
  }

  lemma {:induction false} SplitAfterSep(a: string, sep: char, rest: string)
    requires sep !in a
    ensures Split(a + [sep] + rest, sep) == [a] + Split(rest, sep)
  {
    if a == [] {
      assert [sep] + rest == a + [sep] + rest;
      assert (a + [sep] + rest)[1..] == rest;
    } else {
      SplitAfterSep(a[1..], sep, rest);
      assert (a + [sep] + rest)[1..] == a[1..] + [sep] + rest;
      var tail := Split(a[1..] + [sep] + rest, sep);
      assert tail[0] == a[1..];
      assert [a[0]] + a[1..] == a;
    }
  }

  /** Splitting a join of separator-free parts gives the parts back. */
  lemma {:induction false} JoinSplit(parts: seq<string>, sep: char)
    requires parts != []
    requires forall p :: p in parts ==> sep !in p
    ensures Split(Join(parts, [sep]), sep) == parts
  {
    assert parts[0] in parts;
    if |parts| == 1 {
      SplitNoSep(parts[0], sep);
    } else {
      var rest := parts[1..];
      assert forall p :: p in rest ==> p in parts;
      JoinSplit(rest, sep);
      SplitAfterSep(parts[0], sep, Join(rest, [sep]));
      assert Join(parts, [sep]) == parts[0] + [sep] + Join(rest, [sep]);
      assert [parts[0]] + rest == parts;
    }
  }

  lemma NormalFixed(l: string)
    requires NormalLang(l)
    ensures Strip(l) != [] && Upper(Strip(l)) == l
  {
    UpperNoLower(l);
  }

  lemma CleanLangsSnoc(init: seq<string>, p: string)
    ensures CleanLangs(init + [p]) == CleanLangs(init) + (if Strip(p) != [] then [Upper(Strip(p))] else [])
  {
    assert (init + [p])[..|init + [p]| - 1] == init;
  }

  lemma {:induction false} CleanLangsOfNormal(langs: seq<string>)
    requires forall i :: 0 <= i < |langs| ==> NormalLang(langs[i])
    ensures CleanLangs(langs) == langs
  {
    if langs != [] {
      var init := langs[..|langs| - 1];
      var l := langs[|langs| - 1];
      assert init + [l] == langs;
      forall i | 0 <= i < |init| ensures NormalLang(init[i]) {
        assert init[i] == langs[i];
      }
      CleanLangsOfNormal(init);
      NormalFixed(l);
      CleanLangsSnoc(init, l);
    }
  }

  /** Parsing is a normal form: writing the parsed list back out and parsing it again changes nothing. */
  lemma ParseLangsIdempotent(raw: string, fallback: seq<string>)
    requires fallback != [] && forall l :: l in fallback ==> NormalLang(l)
    ensures ParseLangs(Join(ParseLangs(raw, fallback), ","), fallback) == ParseLangs(raw, fallback)
  {
    var langs := ParseLangs(raw, fallback);
    assert forall l :: l in langs ==> NormalLang(l) by {
      if CleanLangs(Split(raw, ',')) != [] {
        forall l | l in langs ensures NormalLang(l) {
          var p :| p in Split(raw, ',') && Strip(p) != [] && l == Upper(Strip(p));
          UpperStripNormal(p);
        }
      }
    }
    JoinSplit(langs, ',');
    forall i | 0 <= i < |langs| ensures NormalLang(langs[i]) {
      assert langs[i] in langs;
    }
    CleanLangsOfNormal(langs);
  }

  // ---------------------------------------------------------------------
  // LIKE escaping and full-text queries
  // ---------------------------------------------------------------------

  /** `escape_like(term)`: three successive replacements, backslash first. */
  function EscapeLike(term: string): string
  {
    ReplaceChar(ReplaceChar(ReplaceChar(term, '\\', "\\\\"), '%', "\\%"), '_', "\\_")
  }

  /** One pattern element of a `LIKE ... ESCAPE '\'` pattern. */
  datatype LikeAtom = Literal(c: char) | AnyChar | AnyRun

  /** How SQLite reads a LIKE pattern whose escape character is a backslash. */
  function LikePattern(p: string): seq<LikeAtom>
  {
    if p == [] then []
    else if p[0] == '\\' && |p| >= 2 then [Literal(p[1])] + LikePattern(p[2..])
    else if p[0] == '%' then [AnyRun] + LikePattern(p[1..])
    else if p[0] == '_' then [AnyChar] + LikePattern(p[1..])
    else [Literal(p[0])] + LikePattern(p[1..])
  }

  function Literals(s: string): (r: seq<LikeAtom>)
    ensures |r| == |s| && forall k :: 0 <= k < |s| ==> r[k] == Literal(s[k])
  {
    seq(|s|, k requires 0 <= k < |s| => Literal(s[k]))
  }

  function EscapeChar(c: char): string
  {
    if c == '\\' || c == '%' || c == '_' then ['\\', c] else [c]
  }

  lemma {:induction false} EscapeLikeStep(c: char, rest: string)
    ensures EscapeLike([c] + rest) == EscapeChar(c) + EscapeLike(rest)
  {
    assert ([c] + rest)[1..] == rest;
    var r1 := ReplaceChar([c] + rest, '\\', "\\\\");
    assert r1 == ReplaceChar([c], '\\', "\\\\") + ReplaceChar(rest, '\\', "\\\\");
    ReplaceCharAppend(ReplaceChar([c], '\\', "\\\\"), ReplaceChar(rest, '\\', "\\\\"), '%', "\\%");
    var r2a := ReplaceChar(ReplaceChar([c], '\\', "\\\\"), '%', "\\%");
    ReplaceCharAppend(r2a, ReplaceChar(ReplaceChar(rest, '\\', "\\\\"), '%', "\\%"), '_', "\\_");
  }

  /** A searched term is matched literally: the escaped pattern reads back as the term's own characters and holds no wildcard. */
  lemma {:induction false} EscapeLikeIsLiteral(term: string)
    ensures LikePattern(EscapeLike(term)) == Literals(term)
  {
    if term != [] {
      EscapeLikeStep(term[0], term[1..]);
      assert term == [term[0]] + term[1..];
      EscapeLikeIsLiteral(term[1..]);
      PatternAfterEscape(term[0], EscapeLike(term[1..]));
      assert Literals(term) == [Literal(term[0])] + Literals(term[1..]);
    }
  }

  /** An escaped character reads back as that one literal, whatever follows it. */
  lemma PatternAfterEscape(c: char, p: string)
    ensures LikePattern(EscapeChar(c) + p) == [Literal(c)] + LikePattern(p)
  {
    var e := EscapeChar(c) + p;
    if |EscapeChar(c)| == 2 {
      assert e[2..] == p;
    } else {
      assert e[1..] == p;
    }
  }

  /** The words of `s`, split at runs of whitespace (`re.split(r"\s+", ...)` with the empty pieces dropped). */
  function Words(s: string): (ws: seq<string>)
    ensures forall w :: w in ws ==> w != [] && forall k :: 0 <= k < |w| ==> !IsSpace(w[k])
    decreases |s|
  {
    if s == [] then []
    else if IsSpace(s[0]) then Words(s[1..])
    else
      var n := WordLength(s);
      [s[..n]] + Words(s[n..])
  }

  /** `norm_fts_query(q)` (serve.py:31-33): the words of the trimmed query joined by single spaces. */
  function NormFtsQuery(q: string): string
  {
    Join(Words(Strip(q)), " ")
  }

  lemma {:induction false} WordLengthPrefix(w: string, t: string)
    requires forall k :: 0 <= k < |w| ==> !IsSpace(w[k])
    requires t == [] || IsSpace(t[0])
    ensures WordLength(w + t) == |w|
  {
    if w != [] {
      assert (w + t)[1..] == w[1..] + t;
      WordLengthPrefix(w[1..], t);
    }
  }

  /** Splitting a space-joined list of words gives the words back. */
  lemma {:induction false} WordsJoin(ws: seq<string>)
    requires forall w :: w in ws ==> w != [] && forall k :: 0 <= k < |w| ==> !IsSpace(w[k])
    ensures Words(Join(ws, " ")) == ws
  {
    if ws == [] {
    } else if |ws| == 1 {
      assert ws[0] in ws;
      WordsOfWord(ws[0]);
    } else {
      var w := ws[0];
      assert w in ws;
      WordsAfterWord(w, Join(ws[1..], " "));
      assert forall v :: v in ws[1..] ==> v in ws;
      WordsJoin(ws[1..]);
    }
  }

  /** A single word is its own only word. */
  lemma WordsOfWord(w: string)
    requires w != [] && forall k :: 0 <= k < |w| ==> !IsSpace(w[k])
    ensures Words(w) == [w]
  {
    WordLengthPrefix(w, []);
    assert w + [] == w;
    assert w[|w|..] == [];
  }

  /** A word followed by a space splits off as the first word. */
  lemma WordsAfterWord(w: string, rest: string)
    requires w != [] && forall k :: 0 <= k < |w| ==> !IsSpace(w[k])
    ensures Words(w + " " + rest) == [w] + Words(rest)
  {
    var j := w + " " + rest;
    AppendAssoc(w, " ", rest);
    WordLengthPrefix(w, " " + rest);
    assert j[..|w|] == w;
    assert j[|w|..] == " " + rest;
    assert (" " + rest)[1..] == rest;
  }

  lemma JoinEnds(ws: seq<string>)
    requires forall w :: w in ws ==> w != [] && forall k :: 0 <= k < |w| ==> !IsSpace(w[k])
    ensures var j := Join(ws, " "); j != [] ==> !IsSpace(j[0]) && !IsSpace(j[|j| - 1])
    decreases |ws|
  {
    if |ws| > 1 {
      assert ws[0] in ws;
      assert forall v :: v in ws[1..] ==> v in ws;
      JoinEnds(ws[1..]);
    } else if |ws| == 1 {
      assert ws[0] in ws;
    }
  }

  /** Normalising a normalised query changes nothing. */
  lemma NormFtsQueryIdempotent(q: string)
    ensures NormFtsQuery(NormFtsQuery(q)) == NormFtsQuery(q)
  {
    var ws := Words(Strip(q));
    JoinEnds(ws);
    StripNoop(Join(ws, " "));
    WordsJoin(ws);
  }
}
