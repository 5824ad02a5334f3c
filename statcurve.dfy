/**
 * Per-level character stats from promotion breakpoints: the server's
 * `stat_at_level`/`build_avatar_level_stats` (serve.py:205-232) and the
 * worker's `build_level_stats` with its checkpoint filter
 * (cf_worker/src/entry.py:192-218, 487).
 *
 * A breakpoint (promotion stage) holds a level ceiling and, per stat, a base
 * and a per-level growth; columns may be NULL. Python floats are exact reals
 * and `round(x, 4)` rounds half-to-even at the fourth decimal.
 */
module StatCurve {
  import opened Common
  import opened NumberFormat

  datatype Promotion = Promotion(
    maxLevel: Option<int>,
    promotion: Option<int>,
    hpBase: Option<real>, hpAdd: Option<real>,
    attackBase: Option<real>, attackAdd: Option<real>,
    defenceBase: Option<real>, defenceAdd: Option<real>,
    speedBase: Option<real>)

  /** The sort key `int(p.get("max_level") or 0)`. */
  function Ceiling(p: Promotion): int
  {
    GetOr(p.maxLevel, 0)
  }

  /** `[p for p in promotions if p.get("max_level") is not None]` */
  function WithCeiling(ps: seq<Promotion>): (r: seq<Promotion>)
    ensures forall i :: 0 <= i < |r| ==> r[i].maxLevel.Some?
    ensures r == [] <==> forall i :: 0 <= i < |ps| ==> ps[i].maxLevel.None?
  {
    if ps == [] then []
    else
      var init := WithCeiling(ps[..|ps| - 1]);
      assert forall i :: 0 <= i < |ps| - 1 ==> ps[..|ps| - 1][i] == ps[i];
      init + (if ps[|ps| - 1].maxLevel.Some? then [ps[|ps| - 1]] else [])
  }

  // ---------------------------------------------------------------------
  // Stable sort by ceiling (`list.sort` with a key)
  // ---------------------------------------------------------------------

  predicate SortedByCeiling(s: seq<Promotion>)
  {
    forall i, j :: 0 <= i < j < |s| ==> Ceiling(s[i]) <= Ceiling(s[j])
  }

  /** Inserts `x` after every element whose ceiling is not above its own. */
  function Insert(x: Promotion, t: seq<Promotion>): (r: seq<Promotion>)
    ensures |r| == |t| + 1
    ensures multiset(r) == multiset(t) + multiset{x}
  {
    if t == [] then [x]
    else if Ceiling(x) < Ceiling(t[0]) then [x] + t
    else
      assert t == [t[0]] + t[1..];
      [t[0]] + Insert(x, t[1..])
  }

  /** Insertion sort: the input's breakpoints in ascending ceiling order, ties kept in input order. */
  function SortByCeiling(s: seq<Promotion>): (r: seq<Promotion>)
    ensures |r| == |s|
    ensures multiset(r) == multiset(s)
  {
    if s == [] then []
    else
      assert s == s[..|s| - 1] + [s[|s| - 1]];
      Insert(s[|s| - 1], SortByCeiling(s[..|s| - 1]))
  }

  lemma {:induction false} InsertSorted(x: Promotion, t: seq<Promotion>)
    requires SortedByCeiling(t)
    ensures SortedByCeiling(Insert(x, t))
  {
    if t != [] && Ceiling(x) >= Ceiling(t[0]) {
      InsertSorted(x, t[1..]);
      var r := Insert(x, t[1..]);
      assert forall k :: 0 <= k < |r| ==> r[k] in multiset(t[1..]) + multiset{x};
      forall k | 0 <= k < |r| ensures Ceiling(t[0]) <= Ceiling(r[k]) {
        assert r[k] in multiset(t[1..]) + multiset{x};
        if r[k] in multiset(t[1..]) {
          var m :| 0 <= m < |t[1..]| && t[1..][m] == r[k];
          assert t[m + 1] == r[k];
        }
      }
      SortedCons(t[0], r);
    }
  }

  lemma SortedCons(h: Promotion, r: seq<Promotion>)
    requires SortedByCeiling(r) && forall k :: 0 <= k < |r| ==> Ceiling(h) <= Ceiling(r[k])
    ensures SortedByCeiling([h] + r)
  {
    var s := [h] + r;
    forall i, j | 0 <= i < j < |s| ensures Ceiling(s[i]) <= Ceiling(s[j]) {
      assert s[j] == r[j - 1];
      if i > 0 {
        assert s[i] == r[i - 1];
      }
    }
  }

  /** The sort yields ascending ceilings. */
  lemma {:induction false} SortSorted(s: seq<Promotion>)
    ensures SortedByCeiling(SortByCeiling(s))
  {
    if s != [] {
      SortSorted(s[..|s| - 1]);
      InsertSorted(s[|s| - 1], SortByCeiling(s[..|s| - 1]));
    }
  }

  /** The breakpoints with ceiling `k`, in order. */
  function WithKey(s: seq<Promotion>, k: int): seq<Promotion>
  {
    if s == [] then []
    else WithKey(s[..|s| - 1], k) + (if Ceiling(s[|s| - 1]) == k then [s[|s| - 1]] else [])
  }

  lemma {:induction false} WithKeyCons(x: Promotion, t: seq<Promotion>, k: int)
    ensures WithKey([x] + t, k) == (if Ceiling(x) == k then [x] else []) + WithKey(t, k)
  {
    if t == [] {
      assert ([x] + t)[..0] == [];
    } else {
      var s := [x] + t;
      assert s[..|s| - 1] == [x] + t[..|t| - 1];
      assert s[|s| - 1] == t[|t| - 1];
      WithKeyCons(x, t[..|t| - 1], k);
    }
  }

  lemma {:induction false} WithKeyNone(t: seq<Promotion>, k: int)
    requires forall i :: 0 <= i < |t| ==> Ceiling(t[i]) != k
    ensures WithKey(t, k) == []
  {
    if t != [] {
      WithKeyNone(t[..|t| - 1], k);
    }
  }

  lemma WithKeySingle(x: Promotion, k: int)
    ensures WithKey([x], k) == if Ceiling(x) == k then [x] else []
  {
    assert [x][..0] == [];
  }

  lemma InsertWithKeyFront(x: Promotion, t: seq<Promotion>, k: int)
    requires SortedByCeiling(t) && t != [] && Ceiling(x) < Ceiling(t[0])
    ensures WithKey([x] + t, k) == WithKey(t, k) + (if Ceiling(x) == k then [x] else [])
  {
    WithKeyCons(x, t, k);
    if Ceiling(x) == k {
      forall i | 0 <= i < |t| ensures Ceiling(t[i]) != k {
        assert Ceiling(t[0]) <= Ceiling(t[i]);
      }
      WithKeyNone(t, k);
    }
  }

  lemma SortedTail(t: seq<Promotion>)
    requires SortedByCeiling(t) && t != []
    ensures SortedByCeiling(t[1..])
  {
    var rest := t[1..];
    forall i, j | 0 <= i < j < |rest| ensures Ceiling(rest[i]) <= Ceiling(rest[j]) {
      assert rest[i] == t[i + 1] && rest[j] == t[j + 1];
    }
  }

  lemma {:induction false} InsertWithKey(x: Promotion, t: seq<Promotion>, k: int)
    requires SortedByCeiling(t)
    ensures WithKey(Insert(x, t), k) == WithKey(t, k) + (if Ceiling(x) == k then [x] else [])
  {
    if t == [] {
      WithKeySingle(x, k);
    } else if Ceiling(x) < Ceiling(t[0]) {
      InsertWithKeyFront(x, t, k);
    } else {
      SortedTail(t);
      InsertWithKey(x, t[1..], k);
      InsertWithKeyBehind(x, t, k);
    }
  }

  /** Inserting behind the first breakpoint: the first breakpoint's key group is unchanged in front. */
  lemma InsertWithKeyBehind(x: Promotion, t: seq<Promotion>, k: int)
    requires t != [] && Ceiling(x) >= Ceiling(t[0])
    requires WithKey(Insert(x, t[1..]), k) == WithKey(t[1..], k) + (if Ceiling(x) == k then [x] else [])
    ensures WithKey(Insert(x, t), k) == WithKey(t, k) + (if Ceiling(x) == k then [x] else [])
  {
    var rest := t[1..];
    var r := Insert(x, rest);
    var head := if Ceiling(t[0]) == k then [t[0]] else [];
    var tail := if Ceiling(x) == k then [x] else [];
    assert Insert(x, t) == [t[0]] + r;
    WithKeyCons(t[0], r, k);
    WithKeyCons(t[0], rest, k);
    assert [t[0]] + rest == t;
    AppendAssoc(head, WithKey(rest, k), tail);
  }

  /** The sort is stable: the breakpoints sharing a ceiling keep their input order. */
  lemma {:induction false} SortStable(s: seq<Promotion>, k: int)
    ensures WithKey(SortByCeiling(s), k) == WithKey(s, k)
  {
    if s != [] {
      SortStable(s[..|s| - 1], k);
      SortSorted(s[..|s| - 1]);
      InsertWithKey(s[|s| - 1], SortByCeiling(s[..|s| - 1]), k);
    }
  }

  // ---------------------------------------------------------------------
  // Stage selection
  // ---------------------------------------------------------------------

  /** Index of the first stage from `from` whose ceiling is at least `level`, or `|stages|` if none. */
  function FirstCovering(stages: seq<Promotion>, level: int, from: nat): (i: nat)
    requires from <= |stages|
    ensures from <= i <= |stages|
    ensures forall j :: from <= j < i ==> Ceiling(stages[j]) < level
    ensures i < |stages| ==> level <= Ceiling(stages[i])
    decreases |stages| - from
  {
    if from == |stages| then from
    else if level <= Ceiling(stages[from]) then from
    else FirstCovering(stages, level, from + 1)
  }

  /** `next((p for p in valid if level <= ceiling(p)), valid[-1])`, as an index. */
  function PickStage(stages: seq<Promotion>, level: int): (i: nat)
    requires stages != []
    ensures i < |stages|
  {
    var f := FirstCovering(stages, level, 0);
    if f < |stages| then f else |stages| - 1
  }

  /**
   * On stages sorted by ceiling, a level takes the stage with the smallest
   * ceiling at or above it (the first of equals), and the highest stage when
   * every ceiling is below it.
   */
  lemma PickStageSpec(stages: seq<Promotion>, level: int)
    requires stages != [] && SortedByCeiling(stages)
    ensures var i := PickStage(stages, level);
            (exists j :: 0 <= j < |stages| && level <= Ceiling(stages[j])) ==>
              level <= Ceiling(stages[i])
              && (forall j :: 0 <= j < |stages| && level <= Ceiling(stages[j]) ==> Ceiling(stages[i]) <= Ceiling(stages[j]))
              && (forall j :: 0 <= j < i ==> Ceiling(stages[j]) < level)
    ensures var i := PickStage(stages, level);
            (forall j :: 0 <= j < |stages| ==> Ceiling(stages[j]) < level) ==>
              i == |stages| - 1 && forall j :: 0 <= j < |stages| ==> Ceiling(stages[j]) <= Ceiling(stages[i])
  {
  }

  /** Levels only move forward through the stages: a higher level never takes an earlier stage. */
  lemma PickStageMonotone(stages: seq<Promotion>, l1: int, l2: int)
    requires stages != [] && SortedByCeiling(stages) && l1 <= l2
    ensures PickStage(stages, l1) <= PickStage(stages, l2)
  {
  }

  // ---------------------------------------------------------------------
  // Stats
  // ---------------------------------------------------------------------

  /** `round(x, 4)` */
  function Round4(x: real): real
  {
    RoundHalfEven(Scale(x, 4)) as real / 10000.0
  }

  lemma RoundHalfEvenMonotone(x: real, y: real)
    requires x <= y
    ensures RoundHalfEven(x) <= RoundHalfEven(y)
  {
  }

  lemma {:induction false} ScaleMonotone(x: real, y: real, n: nat)
    requires x <= y
    ensures Scale(x, n) <= Scale(y, n)
  {
    if n > 0 {
      ScaleMonotone(x, y, n - 1);
    }
  }

  /** Rounding to four decimals never reverses an order. */
  lemma Round4Monotone(x: real, y: real)
    requires x <= y
    ensures Round4(x) <= Round4(y)
  {
    ScaleMonotone(x, y, 4);
    RoundHalfEvenMonotone(Scale(x, 4), Scale(y, 4));
  }

  /** The stat before rounding: `base + growth * (level - 1)`. */
  function Grown(base: real, growth: real, level: int): real
  {
    base + growth * (level - 1) as real
  }

  /** `stat_at_level(base, growth, level)` (serve.py:205-210). */
  function StatAtLevel(base: Option<real>, growth: Option<real>, level: int): (r: Option<real>)
    ensures r.None? <==> base.None?
  {
    if base.None? then None
    else if growth.None? then Some(Round4(base.value))
    else Some(Round4(Grown(base.value, growth.value, level)))
  }

  /** One row of the server's table. */
  datatype LevelStats = LevelStats(level: int, promotion: Option<int>, hp: Option<real>, attack: Option<real>, defence: Option<real>, speed: Option<real>)

  /** The server's row for `level` taken from `stage`; speed is never scaled by level. */
  function StageRow(stage: Promotion, level: int): LevelStats
  {
    LevelStats(level, stage.promotion,
      StatAtLevel(stage.hpBase, stage.hpAdd, level),
      StatAtLevel(stage.attackBase, stage.attackAdd, level),
      StatAtLevel(stage.defenceBase, stage.defenceAdd, level),
      StatAtLevel(stage.speedBase, None, level))
  }

  const DefaultMaxLevel := 80

  /**
   * `build_avatar_level_stats(promotions, max_level)` (serve.py:213-232): no
   * rows when no breakpoint has a ceiling; otherwise one row per level
   * 1..max_level, each from the stage `PickStage` chooses among the
   * breakpoints sorted by ceiling.
   */
  method BuildAvatarLevelStats(promotions: seq<Promotion>, maxLevel: int) returns (rows: seq<LevelStats>)
    ensures WithCeiling(promotions) == [] ==> rows == []
    ensures WithCeiling(promotions) != [] ==>
              var stages := SortByCeiling(WithCeiling(promotions));
              |rows| == (if maxLevel > 0 then maxLevel else 0)
              && forall i :: 0 <= i < |rows| ==> rows[i] == StageRow(stages[PickStage(stages, i + 1)], i + 1)
  {
    var valid := WithCeiling(promotions);
    valid := SortByCeiling(valid);
    if valid == [] {
      return [];
    }
    rows := [];
    var level := 1;
    while level <= maxLevel
      invariant 1 <= level && (maxLevel > 0 ==> level <= maxLevel + 1) && (maxLevel <= 0 ==> level == 1)
      invariant |rows| == level - 1
      invariant forall i :: 0 <= i < |rows| ==> rows[i] == StageRow(valid[PickStage(valid, i + 1)], i + 1)
    {
      var stage := valid[PickStage(valid, level)];
      rows := rows + [StageRow(stage, level)];
      level := level + 1;
    }
  }

  /** Within one stage and with non-negative growth, a stat never decreases from one level to a higher one. */
  lemma StatAtLevelMonotone(base: real, growth: real, l1: int, l2: int)
    requires growth >= 0.0 && l1 <= l2
    ensures StatAtLevel(Some(base), Some(growth), l1).value <= StatAtLevel(Some(base), Some(growth), l2).value
  {
    var d := (l2 - l1) as real;
    assert growth * (l2 - 1) as real == growth * (l1 - 1) as real + growth * d;
    assert growth * d >= 0.0;
    Round4Monotone(Grown(base, growth, l1), Grown(base, growth, l2));
  }

  /** The rows of one stage share its promotion and speed. */
  lemma StageRowSpeedConstant(stage: Promotion, l1: int, l2: int)
    ensures StageRow(stage, l1).speed == StageRow(stage, l2).speed
    ensures StageRow(stage, l1).promotion == StageRow(stage, l2).promotion
  {
  }

  // ---------------------------------------------------------------------
  // The worker's variant
  // ---------------------------------------------------------------------

  /** One row of the worker's table: every field is a number. */
  datatype WorkerLevelStats = WorkerLevelStats(level: int, promotion: int, hp: real, attack: real, defence: real, speed: real)

  /** The worker's row: a missing base or growth counts as 0, a missing promotion as 0. */
  function WorkerStageRow(stage: Promotion, level: int): WorkerLevelStats
  {
    WorkerLevelStats(level, GetOr(stage.promotion, 0),
      Round4(Grown(GetOr(stage.hpBase, 0.0), GetOr(stage.hpAdd, 0.0), level)),
      Round4(Grown(GetOr(stage.attackBase, 0.0), GetOr(stage.attackAdd, 0.0), level)),
      Round4(Grown(GetOr(stage.defenceBase, 0.0), GetOr(stage.defenceAdd, 0.0), level)),
      Round4(GetOr(stage.speedBase, 0.0)))
  }

  /** `build_level_stats(promotions, level_max)` (cf_worker/src/entry.py:192-218). */
  method BuildLevelStats(promotions: seq<Promotion>, levelMax: int) returns (rows: seq<WorkerLevelStats>)
    ensures WithCeiling(promotions) == [] ==> rows == []
    ensures WithCeiling(promotions) != [] ==>
              var stages := SortByCeiling(WithCeiling(promotions));
              |rows| == (if levelMax > 0 then levelMax else 0)
              && forall i :: 0 <= i < |rows| ==> rows[i] == WorkerStageRow(stages[PickStage(stages, i + 1)], i + 1)
  {
    var valid := WithCeiling(promotions);
    valid := SortByCeiling(valid);
    if valid == [] {
      return [];
    }
    rows := [];
    var level := 1;
    while level <= levelMax
      invariant 1 <= level && (levelMax > 0 ==> level <= levelMax + 1) && (levelMax <= 0 ==> level == 1)
      invariant |rows| == level - 1
      invariant forall i :: 0 <= i < |rows| ==> rows[i] == WorkerStageRow(valid[PickStage(valid, i + 1)], i + 1)
    {
      var stage := valid[PickStage(valid, level)];
      rows := rows + [WorkerStageRow(stage, level)];
      level := level + 1;
    }
  }

  /**
   * The two variants agree wherever the server has a value: same promotion
   * when it is set, same stats when the base is set (a missing growth adds
   * nothing in both), and where the server has no base the worker computes
   * from 0.
   */
  lemma VariantsAgree(stage: Promotion, level: int)
    ensures var s := StageRow(stage, level);
            var w := WorkerStageRow(stage, level);
            && w.level == s.level
            && (s.promotion.Some? ==> w.promotion == s.promotion.value)
            && (s.hp.Some? ==> w.hp == s.hp.value)
            && (s.attack.Some? ==> w.attack == s.attack.value)
            && (s.defence.Some? ==> w.defence == s.defence.value)
            && (s.speed.Some? ==> w.speed == s.speed.value)
            && (s.hp.None? ==> w.hp == Round4(Grown(0.0, GetOr(stage.hpAdd, 0.0), level)))
  {
    forall base: real ensures Grown(base, 0.0, level) == base {
      assert 0.0 * (level - 1) as real == 0.0;
    }
  }

  /** `level == 1 or level % 10 == 0` */
  predicate IsCheckpoint(level: int)
  {
    level == 1 || level % 10 == 0
  }

  /** The checkpoint filter of the worker's avatar handler (cf_worker/src/entry.py:487). */
  function Checkpoints(rows: seq<WorkerLevelStats>): (r: seq<WorkerLevelStats>)
    ensures forall i :: 0 <= i < |r| ==> IsCheckpoint(r[i].level)
    ensures forall x :: x in r ==> x in rows
    ensures forall x :: x in rows && IsCheckpoint(x.level) ==> x in r
  {
    if rows == [] then []
    else
      var last := rows[|rows| - 1];
      var init := Checkpoints(rows[..|rows| - 1]);
      assert forall x :: x in rows[..|rows| - 1] ==> x in rows;
      assert forall x :: x in rows ==> x in rows[..|rows| - 1] || x == last;
      init + (if IsCheckpoint(last.level) then [last] else [])
  }

  /** The list comprehension read front to back: an independent reference for the filter. */
  function KeepCheckpoints(rows: seq<WorkerLevelStats>): seq<WorkerLevelStats>
  {
    if rows == [] then []
    else (if IsCheckpoint(rows[0].level) then [rows[0]] else []) + KeepCheckpoints(rows[1..])
  }

  lemma {:induction false} KeepCheckpointsSnoc(rows: seq<WorkerLevelStats>, x: WorkerLevelStats)
    ensures KeepCheckpoints(rows + [x]) == KeepCheckpoints(rows) + (if IsCheckpoint(x.level) then [x] else [])
  {
    if rows != [] {
      assert (rows + [x])[1..] == rows[1..] + [x];
      KeepCheckpointsSnoc(rows[1..], x);
    } else {
      assert [x][1..] == [];
    }
  }

  /** The filter keeps exactly the checkpoint rows, in their input order. */
  lemma {:induction false} CheckpointsInOrder(rows: seq<WorkerLevelStats>)
    ensures Checkpoints(rows) == KeepCheckpoints(rows)
  {
    if rows != [] {
      var init := rows[..|rows| - 1];
      CheckpointsInOrder(init);
      KeepCheckpointsSnoc(init, rows[|rows| - 1]);
      assert init + [rows[|rows| - 1]] == rows;
    }
  }

  /** Rows for levels 1..n keep level 1 and every tenth level: 1 + n / 10 rows. */
  lemma {:induction false} CheckpointCount(rows: seq<WorkerLevelStats>)
    requires forall i :: 0 <= i < |rows| ==> rows[i].level == i + 1
    ensures |Checkpoints(rows)| == if rows == [] then 0 else 1 + |rows| / 10
  {
    if rows != [] {
      var init := rows[..|rows| - 1];
      assert forall i :: 0 <= i < |init| ==> init[i].level == i + 1;
      CheckpointCount(init);
    }
  }
}
