/**
 * The database builder's entity tables (build_db.py:330-915): each
 * `insert_*` walks a configuration list, skips every entry that is not an
 * object or has no integer id, builds one row per remaining entry (hash
 * columns through `as_hash`, text columns resolved in CHS and EN), and
 * upserts the rows. `ON CONFLICT(key) DO UPDATE` is a map update where the
 * last write wins; `ON CONFLICT ... DO NOTHING` on a key made of every column
 * is a set insertion.
 *
 * `json.dumps` is the parameter `dumps`, `float(str)` the parameter
 * `parseFloat`; the configuration files are given as parsed values.
 */
module Ingest {
  import opened Common
  import opened Coerce
  import opened TextStore
  import References

  type LangMaps = map<string, map<string, string>>

  // ---------------------------------------------------------------------
  // Localised columns
  // ---------------------------------------------------------------------

  /** A hash column with its CHS and EN text columns. */
  datatype Localized = Localized(hash: Option<string>, chs: Option<string>, en: Option<string>)

  /** The text of `hash` in `lang`, when the language has it. */
  predicate TextIs(langMaps: LangMaps, lang: string, hash: Option<string>, text: Option<string>)
  {
    && (text.Some? <==> (hash.Some? && lang in langMaps && hash.value in langMaps[lang]))
    && (text.Some? ==> text.value == langMaps[lang][hash.value])
  }

  /** The columns are consistent: each text is the entry of its hash in its language. */
  predicate LocalizedOk(langMaps: LangMaps, l: Localized)
  {
    TextIs(langMaps, "CHS", l.hash, l.chs) && TextIs(langMaps, "EN", l.hash, l.en)
  }

  /** `h = as_hash(field)` with `resolve(lang_maps, "CHS", h)` and `resolve(lang_maps, "EN", h)`. */
  function Localize(langMaps: LangMaps, field: Json): (l: Localized)
    ensures l.hash == AsHash(field)
    ensures LocalizedOk(langMaps, l)
  {
    var h := AsHash(field);
    Localized(h, Resolve(langMaps, "CHS", h), Resolve(langMaps, "EN", h))
  }

  /** `item.get(key) if isinstance(item.get(key), str) else None` */
  function StrField(item: Json, key: string): Option<string>
  {
    GetStr(item, key)
  }

  /** `to_int(item.get(key))` */
  function IntField(item: Json, key: string): Option<int>
  {
    ToInt(Get(item, key))
  }

  // ---------------------------------------------------------------------
  // Building rows and upserting them
  // ---------------------------------------------------------------------

  /** The keyed rows `build` makes of the entries it accepts, in order. */
  function Collect<R>(items: seq<Json>, build: Json -> Option<R>): (rows: seq<R>)
    ensures |rows| <= |items|
  {
    if items == [] then []
    else
      var b := build(items[|items| - 1]);
      Collect(items[..|items| - 1], build) + (if b.Some? then [b.value] else [])
  }

  /** A row is built exactly when some entry yields it. */
  lemma {:induction false} CollectMembers<R>(items: seq<Json>, build: Json -> Option<R>, r: R)
    ensures r in Collect(items, build) <==> exists i :: 0 <= i < |items| && build(items[i]) == Some(r)
  {
    if items != [] {
      var init := items[..|items| - 1];
      CollectMembers(init, build, r);
      assert forall i :: 0 <= i < |init| ==> init[i] == items[i];
      if r in Collect(init, build) {
        var i :| 0 <= i < |init| && build(init[i]) == Some(r);
        assert build(items[i]) == Some(r);
      }
    }
  }

  /** The loop `for item in data: ... rows.append(row)`, over a value that may not be a list. */
  method BuildRows<R>(data: Json, build: Json -> Option<R>) returns (rows: seq<R>)
    ensures rows == RowsOf(data, build)
  {
    rows := [];
    if !data.Arr? {
      return;
    }
    var items := data.items;
    for i := 0 to |items|
      invariant rows == Collect(items[..i], build)
    {
      assert items[..i + 1][..i] == items[..i];
      var b := build(items[i]);
      if b.Some? {
        rows := rows + [b.value];
      }
    }
    assert items[..|items|] == items;
  }

  /** The table after `INSERT ... ON CONFLICT(key) DO UPDATE` of `rows`, in order. */
  function UpsertAll<K, V>(table: map<K, V>, rows: seq<(K, V)>): map<K, V>
  {
    if rows == [] then table
    else UpsertAll(table, rows[..|rows| - 1])[rows[|rows| - 1].0 := rows[|rows| - 1].1]
  }

  /** `executemany` of an upsert: one row at a time. */
  method Upsert<K, V>(table: map<K, V>, rows: seq<(K, V)>) returns (t: map<K, V>)
    ensures t == UpsertAll(table, rows)
  {
    t := table;
    for i := 0 to |rows|
      invariant t == UpsertAll(table, rows[..i])
    {
      assert rows[..i + 1][..i] == rows[..i];
      t := t[rows[i].0 := rows[i].1];
    }
    assert rows[..|rows|] == rows;
  }

  /** After the upsert the keys are the old ones and the rows' ones. */
  lemma {:induction false} UpsertKeys<K, V>(table: map<K, V>, rows: seq<(K, V)>, k: K)
    ensures k in UpsertAll(table, rows) <==> k in table || exists i :: 0 <= i < |rows| && rows[i].0 == k
  {
    if rows != [] {
      var init := rows[..|rows| - 1];
      UpsertKeys(table, init, k);
      assert forall i :: 0 <= i < |init| ==> init[i] == rows[i];
      if exists i :: 0 <= i < |rows| && rows[i].0 == k {
        var i :| 0 <= i < |rows| && rows[i].0 == k;
        if i < |init| {
          assert init[i].0 == k;
        }
      }
    }
  }

  /** The last row written for a key is the one the table keeps. */
  lemma {:induction false} UpsertLastWins<K, V>(table: map<K, V>, rows: seq<(K, V)>, i: nat)
    requires i < |rows|
    requires forall j :: i < j < |rows| ==> rows[j].0 != rows[i].0
    ensures rows[i].0 in UpsertAll(table, rows) && UpsertAll(table, rows)[rows[i].0] == rows[i].1
  {
    if i < |rows| - 1 {
      var init := rows[..|rows| - 1];
      assert init[i] == rows[i];
      forall j | i < j < |init| ensures init[j].0 != init[i].0 {
        assert init[j] == rows[j];
      }
      UpsertLastWins(table, init, i);
    }
  }

  /** A key no row mentions keeps its old row. */
  lemma {:induction false} UpsertUntouched<K, V>(table: map<K, V>, rows: seq<(K, V)>, k: K)
    requires k in table
    requires forall i :: 0 <= i < |rows| ==> rows[i].0 != k
    ensures k in UpsertAll(table, rows) && UpsertAll(table, rows)[k] == table[k]
  {
    if rows != [] {
      var init := rows[..|rows| - 1];
      assert forall i :: 0 <= i < |init| ==> init[i] == rows[i];
      UpsertUntouched(table, init, k);
    }
  }

  /** A property every old row and every written row has holds of every row of the table. */
  lemma {:induction false} UpsertPreserves<K, V>(table: map<K, V>, rows: seq<(K, V)>, ok: V -> bool)
    requires forall k :: k in table ==> ok(table[k])
    requires forall i :: 0 <= i < |rows| ==> ok(rows[i].1)
    ensures forall k :: k in UpsertAll(table, rows) ==> ok(UpsertAll(table, rows)[k])
  {
    if rows != [] {
      var init := rows[..|rows| - 1];
      assert forall i :: 0 <= i < |init| ==> init[i] == rows[i];
      UpsertPreserves(table, init, ok);
    }
  }

  /** The rows of an `ON CONFLICT(<every column>) DO NOTHING` insert, as the set they add. */
  function Elements<T(!new)>(rows: seq<T>): (s: set<T>)
    ensures forall x :: x in s <==> x in rows
  {
    set x | x in rows
  }

  // ---------------------------------------------------------------------
  // Dialogue (insert_talk)
  // ---------------------------------------------------------------------

  datatype TalkRow = TalkRow(voiceId: Option<int>, speaker: Localized, text: Localized)

  /** A talk_sentence row of one TalkSentenceConfig entry (build_db.py:337-349). */
  function TalkEntry(langMaps: LangMaps, item: Json): (r: Option<(int, TalkRow)>)
    ensures r.Some? <==> item.Obj? && IntField(item, "TalkSentenceID").Some?
    ensures r.Some? ==> r.value.0 == IntField(item, "TalkSentenceID").value
                        && r.value.1.speaker.hash == AsHash(Get(item, "TextmapTalkSentenceName"))
                        && r.value.1.text.hash == AsHash(Get(item, "TalkSentenceText"))
                        && LocalizedOk(langMaps, r.value.1.speaker) && LocalizedOk(langMaps, r.value.1.text)
  {
    if !item.Obj? then None
    else
      match IntField(item, "TalkSentenceID")
      case None => None
      case Some(tid) =>
        Some((tid, TalkRow(IntField(item, "VoiceID"),
          Localize(langMaps, Get(item, "TextmapTalkSentenceName")),
          Localize(langMaps, Get(item, "TalkSentenceText")))))
  }

  /** The (sentence, position, voice) links of one VoiceIDList, positions counting skipped entries. */
  function VoiceLinks(tid: int, voices: seq<Json>): (links: seq<(int, int, int)>)
    ensures forall x :: x in links <==> x.0 == tid && 0 <= x.1 < |voices| && ToInt(voices[x.1]) == Some(x.2)
  {
    if voices == [] then []
    else
      var n := |voices| - 1;
      var init := voices[..n];
      assert forall i :: 0 <= i < n ==> init[i] == voices[i];
      var v := ToInt(voices[n]);
      VoiceLinks(tid, init) + (if v.Some? then [(tid, n, v.value)] else [])
  }

  /** The multi-voice links of one TalkSentenceMultiVoice entry (build_db.py:373-386). */
  function MultiVoiceLinks(item: Json): seq<(int, int, int)>
  {
    if !item.Obj? then []
    else
      var tid := IntField(item, "TalkSentenceID");
      var voices := Get(item, "VoiceIDList");
      if tid.None? || !voices.Arr? then [] else VoiceLinks(tid.value, voices.items)
  }

  function AllLinks<T>(items: seq<Json>, links: Json -> seq<T>): seq<T>
  {
    if items == [] then [] else AllLinks(items[..|items| - 1], links) + links(items[|items| - 1])
  }

  /** A nested loop producing the link rows of every entry of a list. */
  method BuildLinks<T>(data: Json, links: Json -> seq<T>) returns (rows: seq<T>)
    ensures rows == LinksOf(data, links)
  {
    rows := [];
    if !data.Arr? {
      return;
    }
    var items := data.items;
    for i := 0 to |items|
      invariant rows == AllLinks(items[..i], links)
    {
      assert items[..i + 1][..i] == items[..i];
      var more := links(items[i]);
      for j := 0 to |more|
        invariant rows == AllLinks(items[..i], links) + more[..j]
      {
        assert more[..j + 1] == more[..j] + [more[j]];
        rows := rows + [more[j]];
      }
      assert more[..|more|] == more;
    }
    assert items[..|items|] == items;
  }

  // ---------------------------------------------------------------------
  // Missions (insert_missions)
  // ---------------------------------------------------------------------

  datatype MainMissionRow = MainMissionRow(
    missionType: Option<string>, worldId: Option<int>, chapterId: Option<int>, missionPack: Option<int>,
    displayPriority: Option<int>, name: Localized, nextTrackMainMission: Option<int>,
    rewardId: Option<int>, displayRewardId: Option<int>)

  /** A main_mission row of one MainMission entry (build_db.py:407-434). */
  function MainMissionEntry(langMaps: LangMaps, item: Json): (r: Option<(int, MainMissionRow)>)
    ensures r.Some? <==> item.Obj? && IntField(item, "MainMissionID").Some?
    ensures r.Some? ==> r.value.0 == IntField(item, "MainMissionID").value && LocalizedOk(langMaps, r.value.1.name)
  {
    if !item.Obj? then None
    else
      match IntField(item, "MainMissionID")
      case None => None
      case Some(mid) =>
        Some((mid, MainMissionRow(StrField(item, "Type"), IntField(item, "WorldID"), IntField(item, "ChapterID"),
          IntField(item, "MissionPack"), IntField(item, "DisplayPriority"), Localize(langMaps, Get(item, "Name")),
          IntField(item, "NextTrackMainMission"), IntField(item, "RewardID"), IntField(item, "DisplayRewardID"))))
  }

  datatype SubMissionRow = SubMissionRow(mainMissionGuess: int, target: Localized, description: Localized)

  /** `sid // 100`: Python's floor division, which Dafny's `/` is for a positive divisor. */
  function MainMissionGuess(sid: int): (g: int)
    ensures 100 * g <= sid < 100 * g + 100
  {
    sid / 100
  }

  /** A sub_mission row of one SubMission entry (build_db.py:464-479); its parent is a guess, not a checked reference. */
  function SubMissionEntry(langMaps: LangMaps, item: Json): (r: Option<(int, SubMissionRow)>)
    ensures r.Some? <==> item.Obj? && IntField(item, "SubMissionID").Some?
    ensures r.Some? ==> r.value.0 == IntField(item, "SubMissionID").value
                        && r.value.1.mainMissionGuess == MainMissionGuess(r.value.0)
                        && LocalizedOk(langMaps, r.value.1.target) && LocalizedOk(langMaps, r.value.1.description)
  {
    if !item.Obj? then None
    else
      match IntField(item, "SubMissionID")
      case None => None
      case Some(sid) =>
        Some((sid, SubMissionRow(MainMissionGuess(sid),
          Localize(langMaps, Get(item, "TargetText")), Localize(langMaps, Get(item, "DescrptionText")))))
  }

  /** The (pack, main mission) links of one MainMissionPack entry (build_db.py:501-510). */
  function PackLinks(item: Json): (links: seq<(int, int)>)
    ensures forall x :: x in links ==> IntField(item, "MissionPack") == Some(x.0)
  {
    if !item.Obj? then []
    else
      var pack := IntField(item, "MissionPack");
      var lst := Get(item, "MainMissionIdList");
      if pack.None? || !lst.Arr? then [] else PackMembers(pack.value, lst.items)
  }

  function PackMembers(pack: int, ids: seq<Json>): (links: seq<(int, int)>)
    ensures forall x :: x in links <==> x.0 == pack && exists i :: 0 <= i < |ids| && ToInt(ids[i]) == Some(x.1)
  {
    if ids == [] then []
    else
      var init := ids[..|ids| - 1];
      assert forall i :: 0 <= i < |init| ==> init[i] == ids[i];
      var m := ToInt(ids[|ids| - 1]);
      PackMembers(pack, init) + (if m.Some? then [(pack, m.value)] else [])
  }

  // ---------------------------------------------------------------------
  // Characters (insert_avatars)
  // ---------------------------------------------------------------------

  datatype AvatarRow = AvatarRow(
    name: Localized, fullName: Localized, rarity: Option<string>, damageType: Option<string>,
    baseType: Option<string>, spNeed: Option<real>, maxPromotion: Option<int>, maxRank: Option<int>,
    rankIdListJson: string, skillIdListJson: string, releaseState: int)

  /** An avatar row of one AvatarConfig entry (build_db.py:536-568); released only on a literal `true`. */
  function AvatarEntry(langMaps: LangMaps, dumps: Json -> string, parseFloat: string -> Option<real>, item: Json): (r: Option<(int, AvatarRow)>)
    ensures r.Some? <==> item.Obj? && IntField(item, "AvatarID").Some?
    ensures r.Some? ==> r.value.0 == IntField(item, "AvatarID").value
                        && (r.value.1.releaseState == 1 <==> Get(item, "Release") == Bool(true))
                        && LocalizedOk(langMaps, r.value.1.name) && LocalizedOk(langMaps, r.value.1.fullName)
  {
    if !item.Obj? then None
    else
      match IntField(item, "AvatarID")
      case None => None
      case Some(aid) =>
        Some((aid, AvatarRow(Localize(langMaps, Get(item, "AvatarName")), Localize(langMaps, Get(item, "AvatarFullName")),
          StrField(item, "Rarity"), StrField(item, "DamageType"), StrField(item, "AvatarBaseType"),
          AsValue(Get(item, "SPNeed"), parseFloat), IntField(item, "MaxPromotion"), IntField(item, "MaxRank"),
          dumps(GetDefault(item, "RankIDList", Arr([]))), dumps(GetDefault(item, "SkillList", Arr([]))),
          if Get(item, "Release") == Bool(true) then 1 else 0)))
  }

  datatype PromotionRow = PromotionRow(
    maxLevel: Option<int>, playerLevelRequire: Option<int>, worldLevelRequire: Option<int>,
    hpBase: Option<real>, hpAdd: Option<real>, attackBase: Option<real>, attackAdd: Option<real>,
    defenceBase: Option<real>, defenceAdd: Option<real>, speedBase: Option<real>,
    criticalChance: Option<real>, criticalDamage: Option<real>, baseAggro: Option<real>, promotionCostJson: string)

  /** An avatar_promotion row keyed by (avatar, promotion), a missing promotion being 0 (build_db.py:606-629). */
  function PromotionEntry(dumps: Json -> string, parseFloat: string -> Option<real>, item: Json): (r: Option<((int, int), PromotionRow)>)
    ensures r.Some? <==> item.Obj? && IntField(item, "AvatarID").Some?
    ensures r.Some? ==> r.value.0 == (IntField(item, "AvatarID").value, GetOr(IntField(item, "Promotion"), 0))
  {
    if !item.Obj? then None
    else
      match IntField(item, "AvatarID")
      case None => None
      case Some(aid) =>
        var v := (k: string) => AsValue(Get(item, k), parseFloat);
        Some(((aid, GetOr(IntField(item, "Promotion"), 0)), PromotionRow(
          IntField(item, "MaxLevel"), IntField(item, "PlayerLevelRequire"), IntField(item, "WorldLevelRequire"),
          v("HPBase"), v("HPAdd"), v("AttackBase"), v("AttackAdd"), v("DefenceBase"), v("DefenceAdd"),
          v("SpeedBase"), v("CriticalChance"), v("CriticalDamage"), v("BaseAggro"),
          dumps(GetDefault(item, "PromotionCostList", Arr([]))))))
  }

  datatype SkillRow = SkillRow(
    maxLevel: Option<int>, name: Localized, desc: Localized, tag: Localized,
    skillTriggerKey: Option<string>, skillEffect: Option<string>, attackType: Option<string>,
    stanceDamageType: Option<string>, spBase: Option<real>, bpNeed: Option<real>, bpAdd: Option<real>, paramJson: string)

  /** An avatar_skill row keyed by (skill, level); both must be integers (build_db.py:659-691). */
  function SkillEntry(langMaps: LangMaps, dumps: Json -> string, parseFloat: string -> Option<real>, item: Json): (r: Option<((int, int), SkillRow)>)
    ensures r.Some? <==> item.Obj? && IntField(item, "SkillID").Some? && IntField(item, "Level").Some?
    ensures r.Some? ==> r.value.0 == (IntField(item, "SkillID").value, IntField(item, "Level").value)
                        && LocalizedOk(langMaps, r.value.1.name) && LocalizedOk(langMaps, r.value.1.desc)
                        && LocalizedOk(langMaps, r.value.1.tag)
  {
    if !item.Obj? then None
    else
      var sid := IntField(item, "SkillID");
      var lvl := IntField(item, "Level");
      if sid.None? || lvl.None? then None
      else
        Some(((sid.value, lvl.value), SkillRow(IntField(item, "MaxLevel"),
          Localize(langMaps, Get(item, "SkillName")), Localize(langMaps, Get(item, "SkillDesc")),
          Localize(langMaps, Get(item, "SkillTag")),
          StrField(item, "SkillTriggerKey"), StrField(item, "SkillEffect"), StrField(item, "AttackType"),
          StrField(item, "StanceDamageType"), AsValue(Get(item, "SPBase"), parseFloat),
          AsValue(Get(item, "BPNeed"), parseFloat), AsValue(Get(item, "BPAdd"), parseFloat),
          dumps(GetDefault(item, "ParamList", Arr([]))))))
  }

  datatype RankRow = RankRow(
    rank: Option<int>, triggerHash: Option<string>, nameRaw: Option<string>, descRaw: Option<string>,
    iconPath: Option<string>, skillAddLevelJson: string, rankAbilityJson: string, paramJson: string)

  /** An avatar_rank row (build_db.py:727-746): name and description are kept raw, not resolved. */
  function RankEntry(dumps: Json -> string, item: Json): (r: Option<(int, RankRow)>)
    ensures r.Some? <==> item.Obj? && IntField(item, "RankID").Some?
    ensures r.Some? ==> r.value.0 == IntField(item, "RankID").value
                        && r.value.1.nameRaw == StrField(item, "Name") && r.value.1.descRaw == StrField(item, "Desc")
  {
    if !item.Obj? then None
    else
      match IntField(item, "RankID")
      case None => None
      case Some(rid) =>
        Some((rid, RankRow(IntField(item, "Rank"), AsHash(Get(item, "Trigger")), StrField(item, "Name"),
          StrField(item, "Desc"), StrField(item, "IconPath"),
          dumps(GetDefault(item, "SkillAddLevelList", Obj([]))), dumps(GetDefault(item, "RankAbility", Arr([]))),
          dumps(GetDefault(item, "Param", Arr([]))))))
  }

  // ---------------------------------------------------------------------
  // Items (insert_items)
  // ---------------------------------------------------------------------

  /** A purpose id with its CHS and EN text (build_db.py:790-801). */
  function PurposeEntry(langMaps: LangMaps, row: Json): (r: Option<(int, (Option<string>, Option<string>))>)
    ensures r.Some? <==> row.Obj? && IntField(row, "ID").Some?
  {
    if !row.Obj? then None
    else
      match IntField(row, "ID")
      case None => None
      case Some(pid) =>
        var l := Localize(langMaps, Get(row, "PurposeText"));
        Some((pid, (l.chs, l.en)))
  }

  datatype ItemRow = ItemRow(
    sourceFile: string, itemMainType: Option<string>, itemSubType: Option<string>, rarity: Option<string>,
    purposeType: Option<int>, purposeChs: Option<string>, purposeEn: Option<string>,
    name: Localized, desc: Localized, bgDesc: Localized,
    iconPath: Option<string>, figureIconPath: Option<string>, currencyIconPath: Option<string>,
    avatarIconPath: Option<string>, pileLimit: Option<int>)

  /** An item row of one entry of the file `fileName` (build_db.py:813-869); purpose texts only for a known purpose. */
  function ItemEntry(langMaps: LangMaps, purposes: map<int, (Option<string>, Option<string>)>, fileName: string, item: Json): (r: Option<(int, ItemRow)>)
    ensures r.Some? <==> item.Obj? && IntField(item, "ID").Some?
    ensures r.Some? ==> r.value.0 == IntField(item, "ID").value && r.value.1.sourceFile == fileName
                        && (r.value.1.purposeChs.Some? || r.value.1.purposeEn.Some? ==>
                              r.value.1.purposeType.Some? && r.value.1.purposeType.value in purposes)
  {
    if !item.Obj? then None
    else
      match IntField(item, "ID")
      case None => None
      case Some(iid) =>
        var pt := IntField(item, "PurposeType");
        var purpose := if pt.Some? && pt.value in purposes then purposes[pt.value] else (None, None);
        Some((iid, ItemRow(fileName, StrField(item, "ItemMainType"), StrField(item, "ItemSubType"),
          StrField(item, "Rarity"), pt, purpose.0, purpose.1,
          Localize(langMaps, Get(item, "ItemName")), Localize(langMaps, Get(item, "ItemDesc")),
          Localize(langMaps, Get(item, "ItemBGDesc")),
          StrField(item, "ItemIconPath"), StrField(item, "ItemFigureIconPath"),
          StrField(item, "ItemCurrencyIconPath"), StrField(item, "ItemAvatarIconPath"), IntField(item, "PileLimit"))))
  }

  /** The item rows of every file, the files taken in the order given (the sorted `ItemConfig*.json` names). */
  function ItemRows(langMaps: LangMaps, purposes: map<int, (Option<string>, Option<string>)>, files: seq<(string, Json)>): seq<(int, ItemRow)>
  {
    if files == [] then []
    else
      var f := files[|files| - 1];
      ItemRows(langMaps, purposes, files[..|files| - 1])
      + RowsOf(f.1, ItemBuilder(langMaps, purposes, f.0))
  }

  lemma {:induction false} UpsertAppend<K, V>(table: map<K, V>, a: seq<(K, V)>, b: seq<(K, V)>)
    ensures UpsertAll(table, a + b) == UpsertAll(UpsertAll(table, a), b)
  {
    if b == [] {
      assert a + b == a;
    } else {
      UpsertAppend(table, a, b[..|b| - 1]);
      assert (a + b)[..|a + b| - 1] == a + b[..|b| - 1];
    }
  }

  /** A key some row writes ends up holding the value of one of those rows. */
  lemma {:induction false} UpsertValueFrom<K, V>(table: map<K, V>, rows: seq<(K, V)>, k: K)
    requires exists i :: 0 <= i < |rows| && rows[i].0 == k
    ensures k in UpsertAll(table, rows)
    ensures exists i :: 0 <= i < |rows| && rows[i].0 == k && UpsertAll(table, rows)[k] == rows[i].1
  {
    var n := |rows| - 1;
    if rows[n].0 != k {
      var init := rows[..n];
      var i :| 0 <= i < |rows| && rows[i].0 == k;
      assert init[i] == rows[i];
      UpsertValueFrom(table, init, k);
      var j :| 0 <= j < |init| && init[j].0 == k && UpsertAll(table, init)[k] == init[j].1;
      assert rows[j] == init[j];
    }
  }

  /**
   * Files later in the order override earlier ones: an item the last file
   * defines keeps that file's row, whatever the earlier files said.
   */
  lemma ItemLaterFileWins(langMaps: LangMaps, purposes: map<int, (Option<string>, Option<string>)>,
                          files: seq<(string, Json)>, f: (string, Json), table: map<int, ItemRow>, ix: nat)
    requires f.1.Arr? && ix < |f.1.items| && ItemEntry(langMaps, purposes, f.0, f.1.items[ix]).Some?
    ensures var id := ItemEntry(langMaps, purposes, f.0, f.1.items[ix]).value.0;
            var t := UpsertAll(table, ItemRows(langMaps, purposes, files + [f]));
            id in t && t[id].sourceFile == f.0
  {
    var build := ItemBuilder(langMaps, purposes, f.0);
    var e := ItemEntry(langMaps, purposes, f.0, f.1.items[ix]).value;
    var last := RowsOf(f.1, build);
    var before := ItemRows(langMaps, purposes, files);
    var all := files + [f];
    assert all[..|all| - 1] == files && all[|all| - 1] == f;
    assert ItemRows(langMaps, purposes, all) == before + last;
    UpsertAppend(table, before, last);
    assert build(f.1.items[ix]) == Some(e);
    CollectMembers(f.1.items, build, e);
    var mid := UpsertAll(table, before);
    UpsertValueFrom(mid, last, e.0);
    var j :| 0 <= j < |last| && last[j].0 == e.0 && UpsertAll(mid, last)[e.0] == last[j].1;
    CollectMembers(f.1.items, build, last[j]);
    var k :| 0 <= k < |f.1.items| && build(f.1.items[k]) == Some(last[j]);
    assert ItemEntry(langMaps, purposes, f.0, f.1.items[k]) == Some(last[j]);
  }

  // ---------------------------------------------------------------------
  // The builders as function values, named so that every use is the same value
  // ---------------------------------------------------------------------

  function TalkBuilder(langMaps: LangMaps): Json -> Option<(int, TalkRow)>
  {
    (x: Json) => TalkEntry(langMaps, x)
  }

  function MainMissionBuilder(langMaps: LangMaps): Json -> Option<(int, MainMissionRow)>
  {
    (x: Json) => MainMissionEntry(langMaps, x)
  }

  function SubMissionBuilder(langMaps: LangMaps): Json -> Option<(int, SubMissionRow)>
  {
    (x: Json) => SubMissionEntry(langMaps, x)
  }

  function AvatarBuilder(langMaps: LangMaps, dumps: Json -> string, parseFloat: string -> Option<real>): Json -> Option<(int, AvatarRow)>
  {
    (x: Json) => AvatarEntry(langMaps, dumps, parseFloat, x)
  }

  function PromotionBuilder(dumps: Json -> string, parseFloat: string -> Option<real>): Json -> Option<((int, int), PromotionRow)>
  {
    (x: Json) => PromotionEntry(dumps, parseFloat, x)
  }

  function SkillBuilder(langMaps: LangMaps, dumps: Json -> string, parseFloat: string -> Option<real>): Json -> Option<((int, int), SkillRow)>
  {
    (x: Json) => SkillEntry(langMaps, dumps, parseFloat, x)
  }

  function RankBuilder(dumps: Json -> string): Json -> Option<(int, RankRow)>
  {
    (x: Json) => RankEntry(dumps, x)
  }

  function PurposeBuilder(langMaps: LangMaps): Json -> Option<(int, (Option<string>, Option<string>))>
  {
    (x: Json) => PurposeEntry(langMaps, x)
  }

  function ItemBuilder(langMaps: LangMaps, purposes: map<int, (Option<string>, Option<string>)>, fileName: string): Json -> Option<(int, ItemRow)>
  {
    (x: Json) => ItemEntry(langMaps, purposes, fileName, x)
  }

  /** The rows a builder makes of a configuration value: none unless it is a list. */
  function RowsOf<R>(data: Json, build: Json -> Option<R>): seq<R>
  {
    if data.Arr? then Collect(data.items, build) else []
  }

  /** The link rows of a configuration value: none unless it is a list. */
  function LinksOf<T>(data: Json, links: Json -> seq<T>): seq<T>
  {
    if data.Arr? then AllLinks(data.items, links) else []
  }

  /** The purpose texts by id, a later entry replacing an earlier one. */
  function Purposes(langMaps: LangMaps, purposeData: Option<Json>): map<int, (Option<string>, Option<string>)>
  {
    if purposeData.Some? then UpsertAll(map[], RowsOf(purposeData.value, PurposeBuilder(langMaps))) else map[]
  }

  /** Build the rows of a configuration list and upsert them into a table. */
  method UpsertBuilt<K, V>(table: map<K, V>, data: Json, build: Json -> Option<(K, V)>) returns (t: map<K, V>)
    ensures t == UpsertAll(table, RowsOf(data, build))
  {
    var rows := BuildRows(data, build);
    t := Upsert(table, rows);
  }

  /** The loop over the item files of `insert_items`, counting the rows it parses. */
  method BuildItemRows(langMaps: LangMaps, purposes: map<int, (Option<string>, Option<string>)>, files: seq<(string, Json)>)
    returns (rows: seq<(int, ItemRow)>, parsed: nat)
    ensures rows == ItemRows(langMaps, purposes, files) && parsed == |rows|
  {
    rows := [];
    parsed := 0;
    for i := 0 to |files|
      invariant rows == ItemRows(langMaps, purposes, files[..i]) && parsed == |rows|
    {
      assert files[..i + 1][..i] == files[..i];
      var fileRows := BuildRows(files[i].1, ItemBuilder(langMaps, purposes, files[i].0));
      rows := rows + fileRows;
      parsed := parsed + |fileRows|;
    }
    assert files[..|files|] == files;
  }

  /** The entity tables of a database, keyed by primary key; story_reference keeps its insertion order. */
  datatype Tables = Tables(
    meta: map<string, string>,
    talk: map<int, TalkRow>, multiVoice: set<(int, int, int)>,
    mainMission: map<int, MainMissionRow>, subMission: map<int, SubMissionRow>, packLink: set<(int, int)>,
    avatar: map<int, AvatarRow>, promotion: map<(int, int), PromotionRow>,
    skill: map<(int, int), SkillRow>, rank: map<int, RankRow>,
    item: map<int, ItemRow>, storyReference: seq<References.RefRow>)

  function EmptyTables(): Tables
  {
    Tables(map[], map[], {}, map[], map[], {}, map[], map[], map[], map[], map[], [])
  }

  // ---------------------------------------------------------------------
  // The database
  // ---------------------------------------------------------------------

  /**
   * The builder's database. Only the entity tables are modelled; `meta` and
   * `story_reference` are written by other steps and are left as they are.
   */
  class Database {
    var tables: Tables

    constructor()
      ensures tables == EmptyTables()
    {
      tables := EmptyTables();
    }

    /** `insert_talk` (build_db.py:330-397), without the full-text side table. */
    method InsertTalk(langMaps: LangMaps, talkData: Json, multiVoiceData: Json) returns (talkCount: nat, voiceCount: nat)
      modifies this
      ensures tables == old(tables).(talk := UpsertAll(old(tables.talk), RowsOf(talkData, TalkBuilder(langMaps))),
                                     multiVoice := old(tables.multiVoice) + Elements(LinksOf(multiVoiceData, MultiVoiceLinks)))
      ensures talkCount == |RowsOf(talkData, TalkBuilder(langMaps))|
      ensures voiceCount == |LinksOf(multiVoiceData, MultiVoiceLinks)|
    {
      var rows := BuildRows(talkData, TalkBuilder(langMaps));
      var links := BuildLinks(multiVoiceData, MultiVoiceLinks);
      var talks := Upsert(tables.talk, rows);
      tables := tables.(talk := talks, multiVoice := tables.multiVoice + Elements(links));
      talkCount := |rows|;
      voiceCount := |links|;
    }

    /** `insert_missions` (build_db.py:400-525), without the full-text side table. */
    method InsertMissions(langMaps: LangMaps, mainData: Json, subData: Json, packData: Json) returns (mainCount: nat, subCount: nat, linkCount: nat)
      modifies this
      ensures tables == old(tables).(mainMission := UpsertAll(old(tables.mainMission), RowsOf(mainData, MainMissionBuilder(langMaps))),
                                     subMission := UpsertAll(old(tables.subMission), RowsOf(subData, SubMissionBuilder(langMaps))),
                                     packLink := old(tables.packLink) + Elements(LinksOf(packData, PackLinks)))
      ensures mainCount == |RowsOf(mainData, MainMissionBuilder(langMaps))|
      ensures subCount == |RowsOf(subData, SubMissionBuilder(langMaps))|
      ensures linkCount == |LinksOf(packData, PackLinks)|
    {
      var mains := BuildRows(mainData, MainMissionBuilder(langMaps));
      var subs := BuildRows(subData, SubMissionBuilder(langMaps));
      var links := BuildLinks(packData, PackLinks);
      var mainTable := Upsert(tables.mainMission, mains);
      var subTable := Upsert(tables.subMission, subs);
      tables := tables.(mainMission := mainTable, subMission := subTable, packLink := tables.packLink + Elements(links));
      mainCount, subCount, linkCount := |mains|, |subs|, |links|;
    }

    /** `insert_avatars` (build_db.py:528-780), without the full-text side table. */
    method InsertAvatars(langMaps: LangMaps, dumps: Json -> string, parseFloat: string -> Option<real>,
                         avatarData: Json, promotionData: Json, skillData: Json, rankData: Json)
      modifies this
      ensures tables == old(tables).(avatar := UpsertAll(old(tables.avatar), RowsOf(avatarData, AvatarBuilder(langMaps, dumps, parseFloat))),
                                     promotion := UpsertAll(old(tables.promotion), RowsOf(promotionData, PromotionBuilder(dumps, parseFloat))),
                                     skill := UpsertAll(old(tables.skill), RowsOf(skillData, SkillBuilder(langMaps, dumps, parseFloat))),
                                     rank := UpsertAll(old(tables.rank), RowsOf(rankData, RankBuilder(dumps))))
    {
      var avatars := UpsertBuilt(tables.avatar, avatarData, AvatarBuilder(langMaps, dumps, parseFloat));
      var promotions := UpsertBuilt(tables.promotion, promotionData, PromotionBuilder(dumps, parseFloat));
      var skills := UpsertBuilt(tables.skill, skillData, SkillBuilder(langMaps, dumps, parseFloat));
      var ranks := UpsertBuilt(tables.rank, rankData, RankBuilder(dumps));
      tables := tables.(avatar := avatars, promotion := promotions, skill := skills, rank := ranks);
    }

    /**
     * `insert_items` (build_db.py:783-915), without the full-text side table:
     * the purpose texts by id, then the rows of every file in order,
     * upserted. Returns the file count, the rows parsed and upserted (equal:
     * every parsed row is upserted), and the number of distinct items in the
     * table.
     */
    method InsertItems(langMaps: LangMaps, purposeData: Option<Json>, files: seq<(string, Json)>)
      returns (fileCount: nat, parsed: nat, upserted: nat, unique: nat)
      modifies this
      ensures tables == old(tables).(item := UpsertAll(old(tables.item), ItemRows(langMaps, Purposes(langMaps, purposeData), files)))
      ensures parsed == upserted == |ItemRows(langMaps, Purposes(langMaps, purposeData), files)|
      ensures fileCount == |files| && unique == |tables.item.Keys|
    {
      var purposes: map<int, (Option<string>, Option<string>)> := map[];
      if purposeData.Some? {
        var entries := BuildRows(purposeData.value, PurposeBuilder(langMaps));
        purposes := Upsert(map[], entries);
      }
      var rows;
      rows, parsed := BuildItemRows(langMaps, purposes, files);
      var table := Upsert(tables.item, rows);
      tables := tables.(item := table);
      fileCount, upserted, unique := |files|, |rows|, |table.Keys|;
    }
  }

  /** Every text column the builder writes is the entry of its hash column: dialogue rows stay consistent through any number of upserts. */
  lemma TalkTableConsistent(langMaps: LangMaps, table: map<int, TalkRow>, data: Json)
    requires forall k :: k in table ==> LocalizedOk(langMaps, table[k].speaker) && LocalizedOk(langMaps, table[k].text)
    ensures var t := UpsertAll(table, RowsOf(data, TalkBuilder(langMaps)));
            forall k :: k in t ==> LocalizedOk(langMaps, t[k].speaker) && LocalizedOk(langMaps, t[k].text)
  {
    var rows := RowsOf(data, TalkBuilder(langMaps));
    var ok := (r: TalkRow) => LocalizedOk(langMaps, r.speaker) && LocalizedOk(langMaps, r.text);
    forall k | k in table ensures ok(table[k]) {
    }
    forall i | 0 <= i < |rows| ensures ok(rows[i].1) {
      CollectMembers(data.items, TalkBuilder(langMaps), rows[i]);
    }
    UpsertPreserves(table, rows, ok);
  }

  /** Every dialogue entry with an integer id has a row under that id after the upsert. */
  lemma TalkEntryStored(langMaps: LangMaps, table: map<int, TalkRow>, data: Json, i: nat)
    requires data.Arr? && i < |data.items| && TalkEntry(langMaps, data.items[i]).Some?
    ensures TalkEntry(langMaps, data.items[i]).value.0 in UpsertAll(table, RowsOf(data, TalkBuilder(langMaps)))
  {
    var rows := RowsOf(data, TalkBuilder(langMaps));
    var e := TalkEntry(langMaps, data.items[i]).value;
    CollectMembers(data.items, TalkBuilder(langMaps), e);
    var j :| 0 <= j < |rows| && rows[j] == e;
    UpsertKeys(table, rows, e.0);
  }
}
