/**
 * The localisation text store: the `text_map` table keyed by (language,
 * address), how the builder fills it from the TextMap files
 * (build_db.py:300-327), how the server loads a language on demand
 * (serve.py:324-352), and how texts are looked up (serve.py:192-202,
 * 296-305, 525-537; build_db.py:75-78).
 */
module TextStore {
  import opened Common
  import opened HashKey
  import opened Helpers

  /** The `text_map` table: primary key (lang, hash), column text. */
  type TextMap = map<(string, string), string>

  // ---------------------------------------------------------------------
  // Lookups
  // ---------------------------------------------------------------------

  /** `resolve_text_from_key(conn, lang, raw_key)`: the text stored under the key's address, if any. */
  function ResolveTextFromKey(h: Hasher, store: TextMap, lang: string, rawKey: Option<string>): (r: Option<string>)
    ensures r.Some? ==> exists a :: IsAddress(a) && (lang, a) in store && r.value == store[(lang, a)]
    ensures rawKey.None? || rawKey.value == [] || HashTextKey(h, rawKey.value).None? ==> r.None?
    ensures rawKey.Some? && HashTextKey(h, rawKey.value).Some? ==>
              var a := HashTextKey(h, rawKey.value).value;
              r == if (lang, a) in store then Some(store[(lang, a)]) else None
  {
    if rawKey.None? || rawKey.value == [] then None
    else
      match HashTextKey(h, rawKey.value)
      case None => None
      case Some(a) =>
        HashTextKeyIsAddress(h, rawKey.value);
        if (lang, a) in store then Some(store[(lang, a)]) else None
  }

  /** When neither hashing path works for a key that needs hashing, nothing is looked up. */
  lemma ResolveFailsClosed(h: Hasher, store: TextMap, lang: string, rawKey: string)
    requires Strip(rawKey) != [] && !AllDigits(Strip(rawKey))
    requires h.xxhashModule(Strip(rawKey)).None? && h.xxhsum(Strip(rawKey)).None?
    ensures ResolveTextFromKey(h, store, lang, Some(rawKey)) == None
  {
    HashTextKeyFailsClosed(h, rawKey);
  }

  /** Keys that differ only in surrounding whitespace resolve to the same text, since the key is trimmed before hashing. */
  lemma ResolveIgnoresSpace(h: Hasher, store: TextMap, lang: string, rawKey: string)
    ensures ResolveTextFromKey(h, store, lang, Some(rawKey)) == ResolveTextFromKey(h, store, lang, Some(Strip(rawKey)))
  {
    StripIdempotent(rawKey);
    assert HashTextKey(h, rawKey) == HashTextKey(h, Strip(rawKey));
  }

  /** An address is looked up as itself, whatever the hashers do. */
  lemma ResolveAddress(h: Hasher, store: TextMap, lang: string, a: string)
    requires IsAddress(a)
    ensures ResolveTextFromKey(h, store, lang, Some(a)) == if (lang, a) in store then Some(store[(lang, a)]) else None
  {
    OwnAddressIff(h, a);
  }

  /** Python truthiness of an optional text: present and non-empty. */
  predicate Found(t: Option<string>)
  {
    t.Some? && t.value != []
  }

  /** `resolve_text_with_fallback(conn, lang, raw_key, fallback)` (serve.py:525-537). */
  function ResolveTextWithFallback(h: Hasher, store: TextMap, lang: string, rawKey: Option<string>, fallback: Option<string>): Option<string>
  {
    var t := ResolveTextFromKey(h, store, lang, rawKey);
    if Found(t) then t
    else
      var c := if lang != "CHS" then ResolveTextFromKey(h, store, "CHS", rawKey) else None;
      if Found(c) then c
      else
        var e := if lang != "EN" then ResolveTextFromKey(h, store, "EN", rawKey) else None;
        if Found(e) then e else fallback
  }

  /** The languages tried, in order: the requested one, then CHS and EN unless already tried. */
  function FallbackOrder(lang: string): (langs: seq<string>)
    ensures |langs| >= 1 && langs[0] == lang
  {
    [lang] + (if lang != "CHS" then ["CHS"] else []) + (if lang != "EN" then ["EN"] else [])
  }

  /** The reference reading: the first language in `langs` with a non-empty text, else the fallback. */
  function FirstFound(h: Hasher, store: TextMap, langs: seq<string>, rawKey: Option<string>, fallback: Option<string>): Option<string>
  {
    if langs == [] then fallback
    else
      var t := ResolveTextFromKey(h, store, langs[0], rawKey);
      if Found(t) then t else FirstFound(h, store, langs[1..], rawKey, fallback)
  }

  lemma FallbackIsFirstFound(h: Hasher, store: TextMap, lang: string, rawKey: Option<string>, fallback: Option<string>)
    ensures ResolveTextWithFallback(h, store, lang, rawKey, fallback) == FirstFound(h, store, FallbackOrder(lang), rawKey, fallback)
  {
    var order := FallbackOrder(lang);
    if lang != "CHS" && lang != "EN" {
      assert order == [lang, "CHS", "EN"];
      assert order[1..] == ["CHS", "EN"] && order[1..][1..] == ["EN"] && order[1..][1..][1..] == [];
      var c := ResolveTextFromKey(h, store, "CHS", rawKey);
      var e := ResolveTextFromKey(h, store, "EN", rawKey);
      assert FirstFound(h, store, order[1..][1..], rawKey, fallback) == if Found(e) then e else fallback;
      assert FirstFound(h, store, order[1..], rawKey, fallback) == if Found(c) then c else FirstFound(h, store, order[1..][1..], rawKey, fallback);
    } else if lang == "CHS" {
      assert lang != "EN";
      assert order == [lang, "EN"];
      assert order[1..] == ["EN"] && order[1..][1..] == [];
      var e := ResolveTextFromKey(h, store, "EN", rawKey);
      assert FirstFound(h, store, order[1..], rawKey, fallback) == if Found(e) then e else fallback;
    } else {
      assert lang != "CHS";
      assert order == [lang, "CHS"];
      assert order[1..] == ["CHS"] && order[1..][1..] == [];
      var c := ResolveTextFromKey(h, store, "CHS", rawKey);
      assert FirstFound(h, store, order[1..], rawKey, fallback) == if Found(c) then c else fallback;
    }
  }

  lemma {:induction false} FirstFoundSpec(h: Hasher, store: TextMap, langs: seq<string>, rawKey: Option<string>, fallback: Option<string>)
    ensures var r := FirstFound(h, store, langs, rawKey, fallback);
            (forall i :: 0 <= i < |langs| ==> !Found(ResolveTextFromKey(h, store, langs[i], rawKey))) ==> r == fallback
    ensures var r := FirstFound(h, store, langs, rawKey, fallback);
            (exists i :: 0 <= i < |langs| && Found(ResolveTextFromKey(h, store, langs[i], rawKey))) ==>
              exists i :: 0 <= i < |langs| && r == ResolveTextFromKey(h, store, langs[i], rawKey) && Found(r)
                && forall j :: 0 <= j < i ==> !Found(ResolveTextFromKey(h, store, langs[j], rawKey))
  {
    if langs != [] {
      FirstFoundSpec(h, store, langs[1..], rawKey, fallback);
      var r := FirstFound(h, store, langs, rawKey, fallback);
      if !Found(ResolveTextFromKey(h, store, langs[0], rawKey)) {
        if exists i :: 0 <= i < |langs| && Found(ResolveTextFromKey(h, store, langs[i], rawKey)) {
          var i :| 0 <= i < |langs| && Found(ResolveTextFromKey(h, store, langs[i], rawKey));
          assert langs[1..][i - 1] == langs[i];
          var i' :| 0 <= i' < |langs[1..]| && r == ResolveTextFromKey(h, store, langs[1..][i'], rawKey) && Found(r)
                && forall j :: 0 <= j < i' ==> !Found(ResolveTextFromKey(h, store, langs[1..][j], rawKey));
          assert r == ResolveTextFromKey(h, store, langs[i' + 1], rawKey);
          assert forall j :: 1 <= j < i' + 1 ==> langs[j] == langs[1..][j - 1];
        } else {
          assert forall i :: 0 <= i < |langs[1..]| ==> langs[1..][i] == langs[i + 1];
        }
      } else {
        assert r == ResolveTextFromKey(h, store, langs[0], rawKey);
      }
    }
  }

  /**
   * The caller's fallback comes back only when every language in the order has
   * no text or an empty one; otherwise the result is the non-empty text of the
   * first language in the order that has one.
   */
  lemma FallbackOrderSpec(h: Hasher, store: TextMap, lang: string, rawKey: Option<string>, fallback: Option<string>)
    ensures var r := ResolveTextWithFallback(h, store, lang, rawKey, fallback);
            var order := FallbackOrder(lang);
            ((forall i :: 0 <= i < |order| ==> !Found(ResolveTextFromKey(h, store, order[i], rawKey))) ==> r == fallback)
            && ((exists i :: 0 <= i < |order| && Found(ResolveTextFromKey(h, store, order[i], rawKey))) ==>
                 exists i :: 0 <= i < |order| && r == ResolveTextFromKey(h, store, order[i], rawKey) && Found(r)
                   && forall j :: 0 <= j < i ==> !Found(ResolveTextFromKey(h, store, order[j], rawKey)))
  {
    FallbackIsFirstFound(h, store, lang, rawKey, fallback);
    FirstFoundSpec(h, store, FallbackOrder(lang), rawKey, fallback);
  }

  /** `{h for h in hashes if h}` */
  function CleanHashes(hashes: seq<Option<string>>): set<string>
  {
    set i | 0 <= i < |hashes| && hashes[i].Some? && hashes[i].value != [] :: hashes[i].value
  }

  /** `resolve_hash_texts(conn, lang, hashes)` (serve.py:296-305): the stored texts of the given addresses, looked up as they are. */
  function ResolveHashTexts(store: TextMap, lang: string, hashes: seq<Option<string>>): map<string, string>
  {
    var clean := CleanHashes(hashes);
    if clean == {} then map[] else map a | a in clean && (lang, a) in store :: store[(lang, a)]
  }

  /**
   * The batch lookup and the per-key lookup agree on addresses: for every
   * address among the hashes, the batch has a text exactly when the per-key
   * lookup finds one, and it is the same text. Keys the batch does not
   * mention are absent from its result.
   */
  lemma ResolveHashTextsAgrees(h: Hasher, store: TextMap, lang: string, hashes: seq<Option<string>>, a: string)
    ensures a in ResolveHashTexts(store, lang, hashes) ==> a in CleanHashes(hashes)
    ensures IsAddress(a) && a in CleanHashes(hashes) ==>
              ResolveTextFromKey(h, store, lang, Some(a)) ==
                (if a in ResolveHashTexts(store, lang, hashes) then Some(ResolveHashTexts(store, lang, hashes)[a]) else None)
  {
    if IsAddress(a) {
      ResolveAddress(h, store, lang, a);
    }
  }

  /**
   * `resolve(lang_maps, lang, hash_key)` (build_db.py:75-78): the builder's
   * in-memory lookup, by the key as given.
   */
  function Resolve(langMaps: map<string, map<string, string>>, lang: string, hashKey: Option<string>): Option<string>
  {
    if hashKey.None? || hashKey.value == [] then None
    else if lang in langMaps && hashKey.value in langMaps[lang] then Some(langMaps[lang][hashKey.value])
    else None
  }

  // ---------------------------------------------------------------------
  // Building the table from the TextMap files
  // ---------------------------------------------------------------------

  /** A file of the TextMap directory: absent, present but not parseable JSON, or parsed. */
  datatype FileState = Missing | Unreadable | Parsed(doc: Json)

  /** The TextMap directory, by file name; a name not in the map is a missing file. */
  type TextDir = map<string, FileState>

  function FileAt(dir: TextDir, name: string): FileState
  {
    if name in dir then dir[name] else Missing
  }

  /** The two files of a language, in merge order: `TextMapMain<lang>.json` first, then `TextMap<lang>.json`. */
  function LangFiles(dir: TextDir, lang: string): seq<FileState>
  {
    [FileAt(dir, "TextMapMain" + lang + ".json"), FileAt(dir, "TextMap" + lang + ".json")]
  }

  /** The merged text of a language: its files read in merge order, then merged. */
  function LangText(dir: TextDir, lang: string, dumps: Json -> string): map<string, string>
  {
    MergeDocs(ReadDocs(LangFiles(dir, lang)), dumps)
  }

  /** The documents of the files that were read, in file order, skipping missing and unreadable ones. */
  function ReadDocs(files: seq<FileState>): (docs: seq<Json>)
    ensures |docs| <= |files|
    ensures forall d :: d in docs <==> Parsed(d) in files
  {
    if files == [] then []
    else
      var rest := ReadDocs(files[1..]);
      var head := if files[0].Parsed? then [files[0].doc] else [];
      assert files == [files[0]] + files[1..];
      assert forall d :: d in head + rest <==> Parsed(d) in files by {
        forall d ensures d in head + rest <==> Parsed(d) in files {
          assert d in head <==> Parsed(d) == files[0];
        }
      }
      head + rest
  }

  /** No file after position `i` was read. */
  predicate LastParsed(files: seq<FileState>, i: int)
    requires 0 <= i < |files|
  {
    forall j :: i < j < |files| ==> !files[j].Parsed?
  }

  /** When no file could be read there is no document. */
  lemma {:induction false} NothingRead(files: seq<FileState>)
    requires forall j :: 0 <= j < |files| ==> !files[j].Parsed?
    ensures ReadDocs(files) == []
  {
    if files != [] {
      NothingRead(files[1..]);
    }
  }

  /** The document of the last file that was read is the last document, so it is merged last and wins. */
  lemma {:induction false} ReadDocsLast(files: seq<FileState>, i: int)
    requires 0 <= i < |files| && files[i].Parsed? && LastParsed(files, i)
    ensures ReadDocs(files) != [] && ReadDocs(files)[|ReadDocs(files)| - 1] == files[i].doc
  {
    if i == 0 {
      NothingRead(files[1..]);
    } else {
      assert LastParsed(files[1..], i - 1) by {
        forall j | i - 1 < j < |files[1..]| ensures !files[1..][j].Parsed? {
          assert files[1..][j] == files[j + 1];
        }
      }
      ReadDocsLast(files[1..], i - 1);
    }
  }

  /** `v if isinstance(v, str) else json.dumps(v, ensure_ascii=False)`, with the serialiser as a parameter. */
  function TextValue(v: Json, dumps: Json -> string): string
  {
    if v.Str? then v.s else dumps(v)
  }

  /** Adding the entries of one object's fields in order: a later entry replaces an earlier one. */
  function MergeFields(acc: map<string, string>, fields: seq<(string, Json)>, dumps: Json -> string): map<string, string>
  {
    if fields == [] then acc
    else
      var last := fields[|fields| - 1];
      MergeFields(acc, fields[..|fields| - 1], dumps)[last.0 := TextValue(last.1, dumps)]
  }

  /** Merging the documents in order; a document that is not a JSON object is skipped. */
  function MergeDocs(docs: seq<Json>, dumps: Json -> string): map<string, string>
  {
    if docs == [] then map[]
    else
      var acc := MergeDocs(docs[..|docs| - 1], dumps);
      var d := docs[|docs| - 1];
      if d.Obj? then MergeFields(acc, d.fields, dumps) else acc
  }

  /** The value a key ends up with in one object: its last occurrence. */
  function LastValue(fields: seq<(string, Json)>, k: string): Option<Json>
  {
    if fields == [] then None
    else if fields[|fields| - 1].0 == k then Some(fields[|fields| - 1].1)
    else LastValue(fields[..|fields| - 1], k)
  }

  /** The keys of an object's fields. */
  function FieldKeys(fields: seq<(string, Json)>): set<string>
  {
    set i | 0 <= i < |fields| :: fields[i].0
  }

  /** Merging an object: its keys take the text of their last value, every other key is left as it was. */
  lemma {:induction false} MergeFieldsSpec(acc: map<string, string>, fields: seq<(string, Json)>, dumps: Json -> string)
    ensures MergeFields(acc, fields, dumps).Keys == acc.Keys + FieldKeys(fields)
    ensures forall k :: k in FieldKeys(fields) ==> LastValue(fields, k).Some? && MergeFields(acc, fields, dumps)[k] == TextValue(LastValue(fields, k).value, dumps)
    ensures forall k :: k in acc && k !in FieldKeys(fields) ==> MergeFields(acc, fields, dumps)[k] == acc[k]
  {
    if fields != [] {
      var init := fields[..|fields| - 1];
      MergeFieldsSpec(acc, init, dumps);
      assert FieldKeys(fields) == FieldKeys(init) + {fields[|fields| - 1].0} by {
        forall x | x in FieldKeys(fields) ensures x in FieldKeys(init) + {fields[|fields| - 1].0} {
          var i :| 0 <= i < |fields| && fields[i].0 == x;
          if i < |fields| - 1 {
            assert init[i].0 == x;
          }
        }
        forall x | x in FieldKeys(init) ensures x in FieldKeys(fields) {
          var i :| 0 <= i < |init| && init[i].0 == x;
          assert fields[i].0 == x;
        }
      }
    }
  }

  /** Some object document among `docs` has the key `k`. */
  predicate InSomeDoc(docs: seq<Json>, k: string)
  {
    exists i :: 0 <= i < |docs| && docs[i].Obj? && k in FieldKeys(docs[i].fields)
  }

  lemma InSomeDocSnoc(docs: seq<Json>, k: string)
    requires docs != []
    ensures InSomeDoc(docs, k) <==>
              InSomeDoc(docs[..|docs| - 1], k) || (docs[|docs| - 1].Obj? && k in FieldKeys(docs[|docs| - 1].fields))
  {
    var init := docs[..|docs| - 1];
    if InSomeDoc(init, k) {
      var i :| 0 <= i < |init| && init[i].Obj? && k in FieldKeys(init[i].fields);
      assert docs[i] == init[i];
    }
    if InSomeDoc(docs, k) {
      var i :| 0 <= i < |docs| && docs[i].Obj? && k in FieldKeys(docs[i].fields);
      if i < |docs| - 1 {
        assert init[i] == docs[i];
      }
    }
  }

  /**
   * The merged text of a language: a key is present exactly when some object
   * document has it, and a key of the last document takes that document's value.
   */
  lemma {:induction false} MergeDocsSpec(docs: seq<Json>, dumps: Json -> string)
    ensures forall k :: k in MergeDocs(docs, dumps) <==> InSomeDoc(docs, k)
    ensures docs != [] && docs[|docs| - 1].Obj? ==>
              var d := docs[|docs| - 1];
              forall k :: k in FieldKeys(d.fields) ==>
                LastValue(d.fields, k).Some? && k in MergeDocs(docs, dumps) && MergeDocs(docs, dumps)[k] == TextValue(LastValue(d.fields, k).value, dumps)
  {
    if docs != [] {
      var init := docs[..|docs| - 1];
      var d := docs[|docs| - 1];
      MergeDocsSpec(init, dumps);
      if d.Obj? {
        MergeFieldsSpec(MergeDocs(init, dumps), d.fields, dumps);
      }
      forall k {
        InSomeDocSnoc(docs, k);
      }
    }
  }

  /** The merge loop of `load_text_maps` and `ensure_lang_loaded` over the documents read for one language. */
  method MergeDocuments(docs: seq<Json>, dumps: Json -> string) returns (merged: map<string, string>)
    ensures merged == MergeDocs(docs, dumps)
  {
    merged := map[];
    for i := 0 to |docs|
      invariant merged == MergeDocs(docs[..i], dumps)
    {
      assert docs[..i + 1][..i] == docs[..i];
      var d := docs[i];
      if d.Obj? {
        var fields := d.fields;
        ghost var before := merged;
        for j := 0 to |fields|
          invariant merged == MergeFields(before, fields[..j], dumps)
        {
          assert fields[..j + 1][..j] == fields[..j];
          merged := merged[fields[j].0 := TextValue(fields[j].1, dumps)];
        }
        assert fields[..|fields|] == fields;
      }
    }
    assert docs[..|docs|] == docs;
  }

  /** The merge of one language's files, read in merge order. */
  method MergeLang(dir: TextDir, lang: string, dumps: Json -> string) returns (merged: map<string, string>)
    ensures merged == LangText(dir, lang, dumps)
  {
    merged := MergeDocuments(ReadDocs(LangFiles(dir, lang)), dumps);
  }

  /**
   * `load_text_maps(resources_root, langs)` (build_db.py:300-316): the merged
   * text of every requested language; None where reading a present file raises.
   */
  method LoadTextMaps(dir: TextDir, langs: seq<string>, dumps: Json -> string) returns (result: Option<map<string, map<string, string>>>)
    ensures result.None? <==> exists l :: l in langs && Unreadable in LangFiles(dir, l)
    ensures result.Some? ==> forall l :: l in result.value <==> l in langs
    ensures result.Some? ==> forall l :: l in result.value ==> result.value[l] == LangText(dir, l, dumps)
  {
    var maps: map<string, map<string, string>> := map[];
    for i := 0 to |langs|
      invariant forall l :: l in langs[..i] ==> Unreadable !in LangFiles(dir, l)
      invariant forall l :: l in maps <==> l in langs[..i]
      invariant forall l :: l in maps ==> maps[l] == LangText(dir, l, dumps)
    {
      var files := LangFiles(dir, langs[i]);
      if Unreadable in files {
        return None;
      }
      var merged := MergeLang(dir, langs[i], dumps);
      assert langs[..i + 1] == langs[..i] + [langs[i]];
      maps := maps[langs[i] := merged];
    }
    assert langs[..|langs|] == langs;
    return Some(maps);
  }

  /** Every (lang, hash) pair of a set of per-language maps. */
  function Pairs(langMaps: map<string, map<string, string>>): set<(string, string)>
  {
    set l, k | l in langMaps && k in langMaps[l] :: (l, k)
  }

  /** The table after upserting the pairs in `done`: their text replaces any earlier one, every other row is kept. */
  function Overlay(base: TextMap, langMaps: map<string, map<string, string>>, done: set<(string, string)>): (r: TextMap)
    requires done <= Pairs(langMaps)
    ensures r.Keys == base.Keys + done
  {
    map p | p in base.Keys + done :: if p in done then langMaps[p.0][p.1] else base[p]
  }

  lemma PairIn(langMaps: map<string, map<string, string>>, p: (string, string))
    requires p in Pairs(langMaps)
    ensures p.0 in langMaps && p.1 in langMaps[p.0]
  {
  }

  lemma OverlayNone(base: TextMap, langMaps: map<string, map<string, string>>)
    ensures Overlay(base, langMaps, {}) == base
  {
  }

  /** Upserting one more pair is a single-row update of the table. */
  lemma OverlayStep(base: TextMap, langMaps: map<string, map<string, string>>, done: set<(string, string)>, p: (string, string))
    requires done <= Pairs(langMaps) && p in Pairs(langMaps) && p !in done
    ensures p.0 in langMaps && p.1 in langMaps[p.0]
    ensures Overlay(base, langMaps, done + {p}) == Overlay(base, langMaps, done)[p := langMaps[p.0][p.1]]
  {
    PairIn(langMaps, p);
    var a := Overlay(base, langMaps, done + {p});
    var b := Overlay(base, langMaps, done)[p := langMaps[p.0][p.1]];
    assert a.Keys == b.Keys;
    forall q | q in a.Keys ensures a[q] == b[q] {
    }
  }

  /** Moving one pair from the work list to the finished set keeps the two a partition. */
  lemma MoveDone<T>(todo: set<T>, done: set<T>, all: set<T>, p: T)
    requires todo !! done && todo + done == all && p in todo
    ensures p !in done && done <= all && p in all
    ensures (todo - {p}) !! (done + {p}) && (todo - {p}) + (done + {p}) == all
    ensures |done + {p}| == |done| + 1 && |todo - {p}| < |todo|
  {
  }

  /** A database connection, by the one table this part of the model touches. */
  class TextDb {
    var rows: TextMap

    constructor ()
      ensures rows == map[]
    {
      rows := map[];
    }

    /** Some row of the language exists (`SELECT 1 FROM text_map WHERE lang = ? LIMIT 1`). */
    predicate HasLang(lang: string)
      reads this
    {
      exists p :: p in rows && p.0 == lang
    }

    /**
     * `insert_text_map(conn, lang_maps)` (build_db.py:319-327): upserts every
     * (lang, hash, text) row, the last write winning, and reports how many
     * rows were written. Each pair occurs once, so their order does not matter.
     */
    method InsertTextMap(langMaps: map<string, map<string, string>>) returns (count: nat)
      modifies this
      ensures rows == Overlay(old(rows), langMaps, Pairs(langMaps))
      ensures count == |Pairs(langMaps)|
    {
      var todo := Pairs(langMaps);
      ghost var done: set<(string, string)> := {};
      count := 0;
      OverlayNone(rows, langMaps);
      while todo != {}
        invariant todo !! done && todo + done == Pairs(langMaps)
        invariant rows == Overlay(old(rows), langMaps, done)
        invariant count == |done|
        decreases |todo|
      {
        var p :| p in todo;
        MoveDone(todo, done, Pairs(langMaps), p);
        OverlayStep(old(rows), langMaps, done, p);
        rows := rows[p := langMaps[p.0][p.1]];
        done := done + {p};
        todo := todo - {p};
        count := count + 1;
      }
    }

    /**
     * `ensure_lang_loaded(conn, resources_root, lang)` (serve.py:324-352): a
     * language with rows is left alone; otherwise its two files are merged,
     * skipping missing and unreadable ones, and the result, if non-empty, is
     * upserted. Reports whether the language now has text.
     */
    method EnsureLangLoaded(dir: TextDir, lang: string, dumps: Json -> string) returns (ok: bool)
      modifies this
      ensures var l := NormalizeLang(lang, "CHS");
              var merged := LangText(dir, l, dumps);
              && (ok <==> old(HasLang(l)) || merged != map[])
              && (old(HasLang(l)) || merged == map[] ==> rows == old(rows))
              && (!old(HasLang(l)) && merged != map[] ==> rows == Overlay(old(rows), map[l := merged], Pairs(map[l := merged])))
    {
      var l := NormalizeLang(lang, "CHS");
      if exists p :: p in rows && p.0 == l {
        return true;
      }
      var merged := MergeDocuments(ReadDocs(LangFiles(dir, l)), dumps);
      if merged == map[] {
        return false;
      }
      var _ := InsertTextMap(map[l := merged]);
      return true;
    }
  }

  /** After a successful load the language has rows, so loading it again changes nothing. */
  lemma LoadedLangHasRows(base: TextMap, l: string, merged: map<string, string>)
    requires merged != map[]
    ensures exists p :: p in Overlay(base, map[l := merged], Pairs(map[l := merged])) && p.0 == l
  {
    var k :| k in merged;
    assert (l, k) in Pairs(map[l := merged]);
  }

  /** What the builder resolves in memory is what the freshly filled table answers for the same language and address. */
  lemma ResolveAgreesWithTable(langMaps: map<string, map<string, string>>, lang: string, a: string)
    requires a != []
    ensures var table := Overlay(map[], langMaps, Pairs(langMaps));
            Resolve(langMaps, lang, Some(a)) == if (lang, a) in table then Some(table[(lang, a)]) else None
  {
    var table := Overlay(map[], langMaps, Pairs(langMaps));
    if lang in langMaps && a in langMaps[lang] {
      assert (lang, a) in Pairs(langMaps);
    }
  }
}
