/**
 * The story reference index (build_db.py:917-1018): every object node of a
 * story or level-config document that mentions a dialogue line, a timeline,
 * a performance, or a trigger/custom string becomes one `story_reference`
 * row, carrying the node's JSON path and the `$type` tag it inherits from its
 * nearest typed ancestor. `extract_reference_rows` walks a document while
 * appending to a row list and a set of keys already seen;
 * `insert_story_references` drives it over the files, counting documents
 * that fail to parse and flushing rows in batches of 10,000.
 */
module References {
  import opened Common
  import opened Coerce

  // ---------------------------------------------------------------------
  // TALK_SENTENCE_RE = r"TalkSentence_(\d+)", searched
  // ---------------------------------------------------------------------

  const TalkPrefix: string := "TalkSentence_"

  /** A match of the pattern starts at `i`: the prefix, then at least one digit. */
  predicate TalkMatchAt(s: string, i: nat)
  {
    i + |TalkPrefix| < |s| && s[i..i + |TalkPrefix|] == TalkPrefix && IsDigit(s[i + |TalkPrefix|])
  }

  /** The length of the run of digits starting at `j` (the greedy `\d+`). */
  function DigitRun(s: string, j: nat): (n: nat)
    requires j <= |s|
    ensures j + n <= |s|
    ensures forall k :: j <= k < j + n ==> IsDigit(s[k])
    ensures j + n < |s| ==> !IsDigit(s[j + n])
    decreases |s| - j
  {
    if j < |s| && IsDigit(s[j]) then 1 + DigitRun(s, j + 1) else 0
  }

  /** `int(m.group(1))` for the match at `i`. */
  function MatchValue(s: string, i: nat): nat
    requires TalkMatchAt(s, i)
  {
    var j := i + |TalkPrefix|;
    var n := DigitRun(s, j);
    DigitsValue(s[j..j + n])
  }

  /** `TALK_SENTENCE_RE.search(s[i:])`: the value of the leftmost match at or after `i`. */
  function SearchFrom(s: string, i: nat): (r: Option<nat>)
    ensures r.Some? <==> exists k :: i <= k && TalkMatchAt(s, k)
    ensures r.Some? ==> exists k :: i <= k && TalkMatchAt(s, k) && r.value == MatchValue(s, k)
                          && forall m :: i <= m < k ==> !TalkMatchAt(s, m)
    decreases |s| - i
  {
    if i >= |s| then None
    else if TalkMatchAt(s, i) then Some(MatchValue(s, i))
    else
      var r := SearchFrom(s, i + 1);
      assert forall k :: i <= k && TalkMatchAt(s, k) ==> i + 1 <= k;
      r
  }

  function SearchTalk(s: string): Option<nat>
  {
    SearchFrom(s, 0)
  }

  /** A string that spells a reference holds it as its first match. */
  lemma SearchTalkExample(n: nat)
    ensures SearchTalk(TalkPrefix + NatToDecimal(n)) == Some(n)
  {
    var s := TalkPrefix + NatToDecimal(n);
    var d := NatToDecimal(n);
    assert TalkMatchAt(s, 0) by {
      assert s[..|TalkPrefix|] == TalkPrefix;
      assert s[|TalkPrefix|] == d[0];
    }
    var j := |TalkPrefix|;
    var len := DigitRun(s, j);
    assert len == |d|;
    assert s[j..j + len] == d;
    NatToDecimalRoundTrip(n);
  }

  // ---------------------------------------------------------------------
  // One node
  // ---------------------------------------------------------------------

  /** The de-duplication key of a reference: everything but the file. */
  datatype RefKey = RefKey(
    jsonPath: string, taskType: Option<string>, talkId: Option<int>, timeline: Option<string>,
    perfType: Option<string>, perfId: Option<int>, trigger: Option<string>, custom: Option<string>)

  /** A `story_reference` row. */
  datatype RefRow = RefRow(sourcePath: string, sourceGroup: string, key: RefKey)

  /** Python truthiness of an optional string. */
  predicate Truthy(s: Option<string>)
  {
    s.Some? && s.value != []
  }

  /** The node's own string `$type`, else the inherited one. */
  function TaskType(node: Json, inherited: Option<string>): Option<string>
  {
    if Get(node, "$type").Str? then Some(Get(node, "$type").s) else inherited
  }

  /**
   * The dialogue line of a node: an integer `TalkSentenceID` wins; otherwise
   * the first `TalkSentence_<digits>` in the trigger string, else in the
   * custom string (build_db.py:939-948).
   */
  function TalkIdOf(node: Json, trigger: Option<string>, custom: Option<string>): (r: Option<int>)
    ensures IntField(node, "TalkSentenceID").Some? ==> r == IntField(node, "TalkSentenceID")
    ensures IntField(node, "TalkSentenceID").None? && Truthy(trigger) && SearchTalk(trigger.value).Some? ==>
              r == Some(SearchTalk(trigger.value).value as int)
    ensures r.Some? && IntField(node, "TalkSentenceID").None? ==>
              (Truthy(trigger) && SearchTalk(trigger.value).Some? && SearchTalk(trigger.value).value == r.value)
              || (Truthy(custom) && SearchTalk(custom.value).Some? && SearchTalk(custom.value).value == r.value)
  {
    var direct := IntField(node, "TalkSentenceID");
    if direct.Some? then direct
    else if Truthy(trigger) && SearchTalk(trigger.value).Some? then Some(SearchTalk(trigger.value).value as int)
    else if Truthy(custom) && SearchTalk(custom.value).Some? then Some(SearchTalk(custom.value).value as int)
    else None
  }

  /** `to_int(item.get(key))` */
  function IntField(item: Json, key: string): Option<int>
  {
    ToInt(Get(item, key))
  }

  /** The key an object node would be recorded under. */
  function NodeKey(node: Json, path: string, inherited: Option<string>): RefKey
  {
    var trigger := AsCustom(Get(node, "TriggerCustomString"));
    var custom := AsCustom(Get(node, "CustomString"));
    RefKey(path, TaskType(node, inherited), TalkIdOf(node, trigger, custom),
      GetStr(node, "TimelineName"), GetStr(node, "PerformanceType"), IntField(node, "PerformanceID"),
      trigger, custom)
  }

  /** `any((talk_id is not None, timeline, perf_type, perf_id is not None, trigger, custom))` */
  predicate IsReference(k: RefKey)
  {
    k.talkId.Some? || Truthy(k.timeline) || Truthy(k.perfType) || k.perfId.Some? || Truthy(k.trigger) || Truthy(k.custom)
  }

  /** The path of an object member: `f"{p}.{key}"`, spelled `f"$.{key}"` at the root (the same string). */
  function MemberPath(path: string, key: string): (r: string)
    ensures r == path + "." + key
  {
    if path != "$" then path + "." + key else "$." + key
  }

  /** The path of an array element: `f"{p}[{i}]"`. */
  function ElementPath(path: string, i: nat): string
  {
    path + "[" + NatToDecimal(i) + "]"
  }

  // ---------------------------------------------------------------------
  // The walk, as a specification
  // ---------------------------------------------------------------------

  function Width(j: Json): nat
  {
    if j.Obj? then |j.fields| else if j.Arr? then |j.items| else 0
  }

  /** An object node's own key, when it is a reference. */
  function OwnKeys(node: Json, path: string, inherited: Option<string>): seq<RefKey>
  {
    var own := NodeKey(node, path, inherited);
    if IsReference(own) then [own] else []
  }

  /** The keys the walk meets, in order: an object's own key (if it is a reference), then its members'; an array's elements'. */
  function Emissions(node: Json, path: string, inherited: Option<string>): seq<RefKey>
    decreases node, Width(node) + 1
  {
    if node.Obj? then
      OwnKeys(node, path, inherited) + MemberEmissions(node, |node.fields|, path, TaskType(node, inherited))
    else if node.Arr? then ElementEmissions(node, |node.items|, path, inherited)
    else []
  }

  /** The keys met under the first `i` members of an object, which all inherit the object's type. */
  function MemberEmissions(parent: Json, i: nat, path: string, taskType: Option<string>): seq<RefKey>
    requires parent.Obj? && i <= |parent.fields|
    decreases parent, i
  {
    if i == 0 then []
    else
      var f := parent.fields[i - 1];
      MemberEmissions(parent, i - 1, path, taskType) + Emissions(f.1, MemberPath(path, f.0), taskType)
  }

  /** The keys met under the first `i` elements of an array, which inherit what the array inherited. */
  function ElementEmissions(parent: Json, i: nat, path: string, inherited: Option<string>): seq<RefKey>
    requires parent.Arr? && i <= |parent.items|
    decreases parent, i
  {
    if i == 0 then []
    else ElementEmissions(parent, i - 1, path, inherited) + Emissions(parent.items[i - 1], ElementPath(path, i - 1), inherited)
  }

  /** The rows and keys collected so far. */
  datatype Acc = Acc(rows: seq<RefRow>, seen: set<RefKey>)

  /** Recording one key: appended once, the first time it is met. */
  function Add(acc: Acc, rel: string, group: string, k: RefKey): Acc
  {
    if k in acc.seen then acc else Acc(acc.rows + [RefRow(rel, group, k)], acc.seen + {k})
  }

  function AddAll(acc: Acc, rel: string, group: string, keys: seq<RefKey>): Acc
  {
    if keys == [] then acc else Add(AddAll(acc, rel, group, keys[..|keys| - 1]), rel, group, keys[|keys| - 1])
  }

  lemma {:induction false} AddAllAppend(acc: Acc, rel: string, group: string, a: seq<RefKey>, b: seq<RefKey>)
    ensures AddAll(acc, rel, group, a + b) == AddAll(AddAll(acc, rel, group, a), rel, group, b)
  {
    if b == [] {
      assert a + b == a;
    } else {
      assert (a + b)[..|a + b| - 1] == a + b[..|b| - 1];
      AddAllAppend(acc, rel, group, a, b[..|b| - 1]);
    }
  }

  /** `extract_reference_rows(rel_path, data)` as a value. */
  function ReferenceRows(rel: string, data: Json): seq<RefRow>
  {
    AddAll(Acc([], {}), rel, SourceGroup(rel), Emissions(data, "$", None)).rows
  }

  // ---------------------------------------------------------------------
  // The walk, as the program runs it
  // ---------------------------------------------------------------------

  /** The state `extract_reference_rows` closes over: the file, its group, the rows and the keys seen. */
  class Extractor {
    const relPath: string
    const group: string
    var rows: seq<RefRow>
    var seen: set<RefKey>

    constructor(relPath: string)
      ensures this.relPath == relPath && group == SourceGroup(relPath) && rows == [] && seen == {}
    {
      this.relPath := relPath;
      this.group := SourceGroup(relPath);
      rows := [];
      seen := {};
    }

    /** `walk(node, json_path, inherited_task_type)` */
    method Walk(node: Json, path: string, inherited: Option<string>)
      modifies this
      ensures Acc(rows, seen) == AddAll(Acc(old(rows), old(seen)), relPath, group, Emissions(node, path, inherited))
      decreases node, Width(node) + 1
    {
      if node.Obj? {
        var start := Acc(rows, seen);
        Record(node, path, inherited);
        var taskType := TaskType(node, inherited);
        WalkMembers(node, path, taskType);
        AddAllAppend(start, relPath, group, OwnKeys(node, path, inherited), MemberEmissions(node, |node.fields|, path, taskType));
      } else if node.Arr? {
        WalkItems(node, path, inherited);
      }
    }

    /** The object's own row, added unless its key was seen. */
    method Record(node: Json, path: string, inherited: Option<string>)
      modifies this
      ensures Acc(rows, seen) == AddAll(Acc(old(rows), old(seen)), relPath, group, OwnKeys(node, path, inherited))
    {
      var key := NodeKey(node, path, inherited);
      if IsReference(key) && key !in seen {
        seen := seen + {key};
        rows := rows + [RefRow(relPath, group, key)];
      }
      if IsReference(key) {
        assert OwnKeys(node, path, inherited)[..0] == [];
      }
    }

    /** `for key, value in node.items(): walk(value, child, task_type)` */
    method WalkMembers(node: Json, path: string, taskType: Option<string>)
      requires node.Obj?
      modifies this
      ensures Acc(rows, seen) == AddAll(Acc(old(rows), old(seen)), relPath, group, MemberEmissions(node, |node.fields|, path, taskType))
      decreases node, 0
    {
      var start := Acc(rows, seen);
      for i := 0 to |node.fields|
        invariant Acc(rows, seen) == AddAll(start, relPath, group, MemberEmissions(node, i, path, taskType))
      {
        var f := node.fields[i];
        var child := MemberPath(path, f.0);
        Walk(f.1, child, taskType);
        AddAllAppend(start, relPath, group, MemberEmissions(node, i, path, taskType), Emissions(f.1, child, taskType));
      }
    }

    /** `for i, value in enumerate(node): walk(value, f"{json_path}[{i}]", inherited_task_type)` */
    method WalkItems(node: Json, path: string, inherited: Option<string>)
      requires node.Arr?
      modifies this
      ensures Acc(rows, seen) == AddAll(Acc(old(rows), old(seen)), relPath, group, ElementEmissions(node, |node.items|, path, inherited))
      decreases node, 0
    {
      var start := Acc(rows, seen);
      for i := 0 to |node.items|
        invariant Acc(rows, seen) == AddAll(start, relPath, group, ElementEmissions(node, i, path, inherited))
      {
        Walk(node.items[i], ElementPath(path, i), inherited);
        AddAllAppend(start, relPath, group, ElementEmissions(node, i, path, inherited), Emissions(node.items[i], ElementPath(path, i), inherited));
      }
    }
  }

  /** `extract_reference_rows(rel_path, data)`: a fresh walk from the root path "$" with no inherited type. */
  method ExtractReferenceRows(relPath: string, data: Json) returns (rows: seq<RefRow>)
    ensures rows == ReferenceRows(relPath, data)
  {
    var e := new Extractor(relPath);
    e.Walk(data, "$", None);
    rows := e.rows;
  }

  // ---------------------------------------------------------------------
  // What the rows of one document satisfy
  // ---------------------------------------------------------------------

  /** The rows hold each key once, and the seen set is exactly their keys. */
  ghost predicate Deduplicated(acc: Acc)
  {
    (forall i, j :: 0 <= i < j < |acc.rows| ==> acc.rows[i].key != acc.rows[j].key)
    && (forall k :: k in acc.seen <==> exists i :: 0 <= i < |acc.rows| && acc.rows[i].key == k)
  }

  lemma {:induction false} AddAllDeduplicated(acc: Acc, rel: string, group: string, keys: seq<RefKey>)
    requires Deduplicated(acc)
    ensures Deduplicated(AddAll(acc, rel, group, keys))
    ensures forall k :: k in AddAll(acc, rel, group, keys).seen <==> k in acc.seen || k in keys
    ensures forall i :: 0 <= i < |AddAll(acc, rel, group, keys).rows| ==>
              i < |acc.rows| || (AddAll(acc, rel, group, keys).rows[i] == RefRow(rel, group, AddAll(acc, rel, group, keys).rows[i].key)
                                 && AddAll(acc, rel, group, keys).rows[i].key in keys)
    ensures acc.rows <= AddAll(acc, rel, group, keys).rows
  {
    if keys != [] {
      var init := keys[..|keys| - 1];
      AddAllDeduplicated(acc, rel, group, init);
      var mid := AddAll(acc, rel, group, init);
      AddDeduplicated(mid, rel, group, keys[|keys| - 1]);
      assert forall x :: x in init ==> x in keys;
    }
  }

  /** Adding one key keeps the rows deduplicated; a new row is the key's own. */
  lemma AddDeduplicated(acc: Acc, rel: string, group: string, k: RefKey)
    requires Deduplicated(acc)
    ensures Deduplicated(Add(acc, rel, group, k))
    ensures forall x :: x in Add(acc, rel, group, k).seen <==> x in acc.seen || x == k
    ensures acc.rows <= Add(acc, rel, group, k).rows
    ensures forall i :: |acc.rows| <= i < |Add(acc, rel, group, k).rows| ==> Add(acc, rel, group, k).rows[i] == RefRow(rel, group, k)
  {
    if k !in acc.seen {
      var next := Add(acc, rel, group, k);
      assert next.rows[|acc.rows|].key == k;
      forall x ensures x in next.seen <==> exists i :: 0 <= i < |next.rows| && next.rows[i].key == x {
        if x in acc.seen {
          var i :| 0 <= i < |acc.rows| && acc.rows[i].key == x;
          assert next.rows[i] == acc.rows[i];
        }
      }
    }
  }


  /**
   * No two rows of one document share a key, every row is a reference met by
   * the walk, and every reference the walk meets has a row.
   */
  lemma ReferenceRowsSpec(rel: string, data: Json)
    ensures var rows := ReferenceRows(rel, data);
            (forall i, j :: 0 <= i < j < |rows| ==> rows[i].key != rows[j].key)
            && (forall i :: 0 <= i < |rows| ==> rows[i].sourcePath == rel && rows[i].sourceGroup == SourceGroup(rel)
                                                && rows[i].key in Emissions(data, "$", None))
            && (forall k :: k in Emissions(data, "$", None) ==> exists i :: 0 <= i < |rows| && rows[i].key == k)
  {
    AddAllDeduplicated(Acc([], {}), rel, SourceGroup(rel), Emissions(data, "$", None));
  }

  /** The walk meets only references, each under a path that extends the path it started from. */
  lemma {:induction false} EmissionsShape(node: Json, path: string, inherited: Option<string>)
    ensures forall k :: k in Emissions(node, path, inherited) ==> IsReference(k) && StartsWith(k.jsonPath, path)
    decreases node, Width(node) + 1
  {
    if node.Obj? {
      MemberEmissionsShape(node, |node.fields|, path, TaskType(node, inherited));
    } else if node.Arr? {
      ElementEmissionsShape(node, |node.items|, path, inherited);
    }
  }

  lemma {:induction false} MemberEmissionsShape(parent: Json, i: nat, path: string, taskType: Option<string>)
    requires parent.Obj? && i <= |parent.fields|
    ensures forall k :: k in MemberEmissions(parent, i, path, taskType) ==> IsReference(k) && StartsWith(k.jsonPath, path)
    decreases parent, i
  {
    if i > 0 {
      var f := parent.fields[i - 1];
      MemberEmissionsShape(parent, i - 1, path, taskType);
      var child := MemberPath(path, f.0);
      EmissionsShape(f.1, child, taskType);
      forall k | k in Emissions(f.1, child, taskType) ensures StartsWith(k.jsonPath, path) {
        assert child[..|path|] == path;
        assert k.jsonPath[..|path|] == k.jsonPath[..|child|][..|path|];
      }
    }
  }

  lemma {:induction false} ElementEmissionsShape(parent: Json, i: nat, path: string, inherited: Option<string>)
    requires parent.Arr? && i <= |parent.items|
    ensures forall k :: k in ElementEmissions(parent, i, path, inherited) ==> IsReference(k) && StartsWith(k.jsonPath, path)
    decreases parent, i
  {
    if i > 0 {
      ElementEmissionsShape(parent, i - 1, path, inherited);
      var child := ElementPath(path, i - 1);
      EmissionsShape(parent.items[i - 1], child, inherited);
      forall k | k in Emissions(parent.items[i - 1], child, inherited) ensures StartsWith(k.jsonPath, path) {
        assert child[..|path|] == path;
        assert k.jsonPath[..|path|] == k.jsonPath[..|child|][..|path|];
      }
    }
  }

  // ---------------------------------------------------------------------
  // insert_story_references
  // ---------------------------------------------------------------------

  /** `iter_reference_files` keeps every JSON file but the `.layout.json` ones. */
  predicate IsReferenceFile(relPath: string)
  {
    !EndsWith(relPath, ".layout.json")
  }

  /** The candidate files, by relative path, kept in order; each with its parsed document, or None when loading raised. */
  function ReferenceFiles(candidates: seq<(string, Option<Json>)>): (r: seq<(string, Option<Json>)>)
    ensures forall f :: f in r <==> f in candidates && IsReferenceFile(f.0)
  {
    if candidates == [] then []
    else
      var last := candidates[|candidates| - 1];
      var init := candidates[..|candidates| - 1];
      assert forall f :: f in candidates <==> f in init || f == last;
      ReferenceFiles(init) + (if IsReferenceFile(last.0) then [last] else [])
  }

  /** The positions of the reference files among the candidates, ascending. */
  function KeptPositions(candidates: seq<(string, Option<Json>)>): (idx: seq<int>)
    ensures forall k :: 0 <= k < |idx| ==> 0 <= idx[k] < |candidates|
    ensures forall k, m :: 0 <= k < m < |idx| ==> idx[k] < idx[m]
    ensures forall i :: 0 <= i < |candidates| ==> (i in idx <==> IsReferenceFile(candidates[i].0))
  {
    if candidates == [] then []
    else
      var init := candidates[..|candidates| - 1];
      KeptPositions(init) + (if IsReferenceFile(candidates[|candidates| - 1].0) then [|candidates| - 1] else [])
  }

  /** The kept files are the candidates at the kept positions, in the candidates' order. */
  lemma {:induction false} ReferenceFilesInOrder(candidates: seq<(string, Option<Json>)>)
    ensures var r := ReferenceFiles(candidates);
            var idx := KeptPositions(candidates);
            |r| == |idx| && forall k :: 0 <= k < |r| ==> r[k] == candidates[idx[k]]
  {
    if candidates != [] {
      var init := candidates[..|candidates| - 1];
      ReferenceFilesInOrder(init);
      var r := ReferenceFiles(candidates);
      var idx := KeptPositions(candidates);
      forall k | 0 <= k < |r| ensures r[k] == candidates[idx[k]] {
        if k < |ReferenceFiles(init)| {
          assert r[k] == ReferenceFiles(init)[k];
          assert idx[k] == KeptPositions(init)[k];
          assert candidates[idx[k]] == init[idx[k]];
        }
      }
    }
  }

  /** The rows of every file that parsed, file after file. */
  function AllReferenceRows(files: seq<(string, Option<Json>)>): seq<RefRow>
  {
    if files == [] then []
    else
      var f := files[|files| - 1];
      AllReferenceRows(files[..|files| - 1]) + FileRows(f)
  }

  /** The rows one file contributes: none when it failed to load. */
  function FileRows(f: (string, Option<Json>)): seq<RefRow>
  {
    if f.1.Some? then ReferenceRows(f.0, f.1.value) else []
  }

  /** The files whose document could not be loaded. */
  function ParseErrors(files: seq<(string, Option<Json>)>): nat
  {
    if files == [] then 0
    else ParseErrors(files[..|files| - 1]) + (if files[|files| - 1].1.None? then 1 else 0)
  }

  const BatchSize := 10000

  /** The story_reference table: a plain insert, so rows accumulate in insertion order. */
  class ReferenceTable {
    var rows: seq<RefRow>

    constructor()
      ensures rows == []
    {
      rows := [];
    }

    /**
     * `insert_story_references` (build_db.py:971-1018): each row of each
     * parsed file is inserted exactly once, in order, through the 10,000-row
     * flushes and the final one; the totals are the number of reference files,
     * of rows, and of files that failed to load.
     */
    method InsertStoryReferences(candidates: seq<(string, Option<Json>)>) returns (fileCount: nat, total: nat, parseErrors: nat)
      modifies this
      ensures rows == old(rows) + AllReferenceRows(ReferenceFiles(candidates))
      ensures fileCount == |ReferenceFiles(candidates)|
      ensures total == |AllReferenceRows(ReferenceFiles(candidates))|
      ensures parseErrors == ParseErrors(ReferenceFiles(candidates))
    {
      var files := ReferenceFiles(candidates);
      total, parseErrors := InsertFiles(files);
      fileCount := |files|;
    }

    /** The loop over the reference files, with its batches. */
    method InsertFiles(files: seq<(string, Option<Json>)>) returns (total: nat, parseErrors: nat)
      modifies this
      ensures rows == old(rows) + AllReferenceRows(files)
      ensures total == |AllReferenceRows(files)|
      ensures parseErrors == ParseErrors(files)
    {
      total, parseErrors := 0, 0;
      var batch: seq<RefRow> := [];
      for i := 0 to |files|
        invariant rows + batch == old(rows) + AllReferenceRows(files[..i])
        invariant total == |AllReferenceRows(files[..i])|
        invariant parseErrors == ParseErrors(files[..i])
        invariant |batch| < BatchSize
      {
        FilesStep(files, i);
        var found: nat;
        var failed: bool;
        batch, found, failed := InsertFile(files[i], batch);
        AppendAssoc(old(rows), AllReferenceRows(files[..i]), FileRows(files[i]));
        total := total + found;
        if failed {
          parseErrors := parseErrors + 1;
        }
      }
      assert files[..|files|] == files;
      if |batch| > 0 {
        rows := rows + batch;
      }
    }

    /** One iteration: load the file (or count it as failed), extend the batch with its rows, flush a full batch. */
    method InsertFile(f: (string, Option<Json>), batch: seq<RefRow>) returns (rest: seq<RefRow>, found: nat, failed: bool)
      requires |batch| < BatchSize
      modifies this
      ensures rows + rest == old(rows) + batch + FileRows(f)
      ensures |rest| < BatchSize
      ensures found == |FileRows(f)| && failed == f.1.None?
    {
      rest, found, failed := batch, 0, f.1.None?;
      if f.1.Some? {
        var rowsOf := ExtractReferenceRows(f.0, f.1.value);
        assert rowsOf == FileRows(f);
        AppendAssoc(rows, batch, rowsOf);
        if |rowsOf| > 0 {
          rest := rest + rowsOf;
          found := |rowsOf|;
        }
        rest := FlushIfFull(rest);
      }
    }

    /** The flush inside the loop: a batch of 10,000 rows or more is written and cleared. */
    method FlushIfFull(batch: seq<RefRow>) returns (rest: seq<RefRow>)
      modifies this
      ensures rows + rest == old(rows) + batch
      ensures rest == (if |batch| >= BatchSize then [] else batch)
    {
      rest := batch;
      if |batch| >= BatchSize {
        rows := rows + batch;
        rest := [];
      }
    }
  }

  /** One more file extends the rows by that file's rows and the error count by its failure. */
  lemma FilesStep(files: seq<(string, Option<Json>)>, i: nat)
    requires i < |files|
    ensures AllReferenceRows(files[..i + 1]) == AllReferenceRows(files[..i]) + FileRows(files[i])
    ensures ParseErrors(files[..i + 1]) == ParseErrors(files[..i]) + (if files[i].1.None? then 1 else 0)
  {
    assert files[..i + 1][..i] == files[..i];
  }
}
