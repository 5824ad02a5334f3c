/**
 * Per-module databases (build_module_dbs.py): each module database gets the
 * module's own tables copied from the full database and, when text embedding
 * is on for it, the text rows of exactly the addresses the module needs (its
 * "closure") in the requested languages. Tables are maps keyed by primary key;
 * the side indices (character stories, light-cone skills, monsters) are the
 * loaders' outputs, given as input, None when the loader raised.
 */
module ModuleClosure {
  import opened Common
  import opened HashKey
  import opened Coerce
  import Ingest
  import References

  datatype Module = Avatar | Dialogue | Mission | Item | Monster

  // ---------------------------------------------------------------------
  // Tables and copy_module_tables
  // ---------------------------------------------------------------------

  /** The full database: its tables and its text_map, keyed by (lang, hash). */
  datatype Source = Source(tables: Ingest.Tables, textMap: map<(string, string), string>)

  /** SQL `s LIKE p || '%'` with a literal prefix: ASCII case-insensitive prefix match. */
  predicate LikePrefix(s: string, prefix: string)
  {
    |prefix| <= |s| && Lower(s[..|prefix|]) == Lower(prefix)
  }

  /** The story references a mission database keeps. */
  predicate IsMissionReference(sourcePath: string)
  {
    LikePrefix(sourcePath, "Story/Mission/") || LikePrefix(sourcePath, "Config/Level/Mission/")
  }

  function MissionReferences(rows: seq<References.RefRow>): (r: seq<References.RefRow>)
    ensures |r| <= |rows|
    ensures forall x :: x in r <==> x in rows && IsMissionReference(x.sourcePath)
  {
    if rows == [] then []
    else
      var last := rows[|rows| - 1];
      var init := rows[..|rows| - 1];
      assert forall x :: x in rows <==> x in init || x == last;
      MissionReferences(init) + (if IsMissionReference(last.sourcePath) then [last] else [])
  }

  /** `copy_module_tables(conn, module)` into a fresh database. */
  function ModuleTables(m: Module, t: Ingest.Tables): (r: Ingest.Tables)
    ensures r.meta == t.meta
    ensures m == Monster ==> r == Ingest.EmptyTables().(meta := t.meta)
    ensures forall x :: x in r.storyReference <==> m == Mission && x in t.storyReference && IsMissionReference(x.sourcePath)
    ensures m == Avatar ==> r.avatar == t.avatar && r.promotion == t.promotion && r.skill == t.skill && r.rank == t.rank
    ensures m != Avatar ==> r.avatar == map[] && r.promotion == map[] && r.skill == map[] && r.rank == map[]
    ensures m == Dialogue ==> r.talk == t.talk && r.multiVoice == t.multiVoice
    ensures m != Dialogue ==> r.talk == map[] && r.multiVoice == {}
    ensures m == Mission ==> r.mainMission == t.mainMission && r.subMission == t.subMission && r.packLink == t.packLink
    ensures m != Mission ==> r.mainMission == map[] && r.subMission == map[] && r.packLink == {}
    ensures r.item == (if m == Item then t.item else map[])
  {
    var e := Ingest.EmptyTables().(meta := t.meta);
    match m
    case Avatar => e.(avatar := t.avatar, promotion := t.promotion, skill := t.skill, rank := t.rank)
    case Dialogue => e.(talk := t.talk, multiVoice := t.multiVoice)
    case Mission =>
      e.(mainMission := t.mainMission, subMission := t.subMission, packLink := t.packLink,
         storyReference := MissionReferences(t.storyReference))
    case Item => e.(item := t.item)
    case Monster => e
  }

  // ---------------------------------------------------------------------
  // The closure
  // ---------------------------------------------------------------------

  /** A column value the `IS NOT NULL AND != ''` filters keep. */
  predicate NonEmpty(h: Option<string>)
  {
    h.Some? && h.value != []
  }

  /** The addresses `add_hashes_from_sql` inserts for a module: its non-empty hash columns, as stored. */
  function SqlHashes(m: Module, t: Ingest.Tables): set<string>
  {
    match m
    case Avatar =>
      (set r | r in t.avatar.Values && NonEmpty(r.name.hash) :: r.name.hash.value)
      + (set r | r in t.avatar.Values && NonEmpty(r.fullName.hash) :: r.fullName.hash.value)
      + (set r | r in t.skill.Values && NonEmpty(r.name.hash) :: r.name.hash.value)
      + (set r | r in t.skill.Values && NonEmpty(r.desc.hash) :: r.desc.hash.value)
      + (set r | r in t.skill.Values && NonEmpty(r.tag.hash) :: r.tag.hash.value)
    case Dialogue =>
      (set r | r in t.talk.Values && NonEmpty(r.speaker.hash) :: r.speaker.hash.value)
      + (set r | r in t.talk.Values && NonEmpty(r.text.hash) :: r.text.hash.value)
    case Mission =>
      (set r | r in t.mainMission.Values && NonEmpty(r.name.hash) :: r.name.hash.value)
      + (set r | r in t.subMission.Values && NonEmpty(r.target.hash) :: r.target.hash.value)
      + (set r | r in t.subMission.Values && NonEmpty(r.description.hash) :: r.description.hash.value)
    case Item =>
      (set r | r in t.item.Values && NonEmpty(r.name.hash) :: r.name.hash.value)
      + (set r | r in t.item.Values && NonEmpty(r.desc.hash) :: r.desc.hash.value)
      + (set r | r in t.item.Values && NonEmpty(r.bgDesc.hash) :: r.bgDesc.hash.value)
    case Monster => {}
  }

  /** The loaders' outputs: story entries per character and story-name values; light-cone entries; monster items and skill values. */
  datatype SideIndices = SideIndices(
    avatarStories: Option<(seq<seq<Json>>, seq<Json>)>,
    lightCones: Option<seq<Json>>,
    monsters: Option<(seq<Json>, seq<Json>)>)

  /** The string values of the named members of a dict (`isinstance(val, str)`); nothing for a non-dict. */
  function StrMembers(j: Json, keys: seq<string>): set<string>
  {
    if j.Obj? then set k | k in keys && Get(j, k).Str? :: Get(j, k).s else {}
  }

  /** The strings of a JSON list; nothing for anything else. */
  function StrItems(j: Json): set<string>
  {
    if j.Arr? then set x | x in j.items && x.Str? :: x.s else {}
  }

  /** The strings of `json.loads(rank_ability_json)` when it parses to a list. */
  function RankAbilityKeys(parseJson: string -> Option<Json>, r: Ingest.RankRow): set<string>
  {
    var parsed := parseJson(r.rankAbilityJson);
    if parsed.Some? then StrItems(parsed.value) else {}
  }

  function LightConeHashes(entry: Json): set<string>
  {
    var levels := Get(entry, "levels");
    if levels.Arr? then set lv, a | lv in levels.items && a in StrMembers(lv, ["skill_name_hash", "skill_desc_hash"]) :: a
    else {}
  }

  /** Text keys the closure hashes: character rank names, descriptions and ability strings; monster ability-name keys. */
  function RawKeys(m: Module, t: Ingest.Tables, side: SideIndices, parseJson: string -> Option<Json>): set<string>
  {
    match m
    case Avatar =>
      (set r | r in t.rank.Values && NonEmpty(r.nameRaw) :: r.nameRaw.value)
      + (set r | r in t.rank.Values && NonEmpty(r.descRaw) :: r.descRaw.value)
      + (set r, k | r in t.rank.Values && k in RankAbilityKeys(parseJson, r) :: k)
    case Monster =>
      if side.monsters.None? then {}
      else set item, k | item in side.monsters.value.0 && item.Obj? && k in StrItems(Get(item, "ability_name_keys")) :: k
    case _ => {}
  }

  /** Values the side indices already hold as addresses (produced by `extract_hash_value`). */
  function AddressValues(m: Module, side: SideIndices): set<string>
  {
    match m
    case Avatar =>
      if side.avatarStories.None? then {}
      else
        (set es, e, a | es in side.avatarStories.value.0 && e in es && a in StrMembers(e, ["story_hash"]) :: a)
        + (set v | v in side.avatarStories.value.1 && v.Str? :: v.s)
    case Item =>
      if side.lightCones.None? then {}
      else set e, a | e in side.lightCones.value && a in LightConeHashes(e) :: a
    case Monster =>
      if side.monsters.None? then {}
      else
        (set item, a | item in side.monsters.value.0 && a in StrMembers(item, ["name_hash", "introduction_hash"]) :: a)
        + (set s, a | s in side.monsters.value.1 && a in StrMembers(s, ["name_hash", "desc_hash", "type_desc_hash", "tag_hash"]) :: a)
    case _ => {}
  }

  /** The addresses `hash_text_key` gives a set of keys (blank and unresolvable keys give none). */
  function Addresses(h: Hasher, keys: set<string>): set<string>
  {
    set k | k in keys && HashTextKey(h, k).Some? :: HashTextKey(h, k).value
  }

  /** `add_hash_if_any(out, raw)` */
  function AddHashIfAny(h: Hasher, out: set<string>, raw: Option<string>): (r: set<string>)
    ensures out <= r && |r - out| <= 1
    ensures raw.None? || raw.value == [] ==> r == out
    ensures raw.Some? && HashTextKey(h, raw.value).Some? ==> r == out + {HashTextKey(h, raw.value).value}
    ensures raw.Some? && HashTextKey(h, raw.value).None? ==> r == out
    ensures forall a :: a in r - out ==> IsAddress(a)
  {
    if raw.None? || raw.value == [] then out
    else
      match HashTextKey(h, raw.value)
      case Some(a) =>
        HashTextKeyIsAddress(h, raw.value);
        assert (out + {a}) - out <= {a};
        out + {a}
      case None => out
  }

  /** The non-empty values, added unchanged. */
  function NonBlank(values: set<string>): set<string>
  {
    set v | v in values && v != []
  }

  /** `gather_module_hashes` as written: every value is passed through `add_hash_if_any`, addresses included. */
  function GatheredAsWritten(h: Hasher, m: Module, t: Ingest.Tables, side: SideIndices, parseJson: string -> Option<Json>): set<string>
  {
    Addresses(h, RawKeys(m, t, side, parseJson) + AddressValues(m, side))
  }

  /** The corrected gathering: text keys are hashed, values that are already addresses are added as they are. */
  function Gathered(h: Hasher, m: Module, t: Ingest.Tables, side: SideIndices, parseJson: string -> Option<Json>): set<string>
  {
    Addresses(h, RawKeys(m, t, side, parseJson)) + NonBlank(AddressValues(m, side))
  }

  /** The `needed_hash` set of a module database. */
  function Closure(h: Hasher, m: Module, t: Ingest.Tables, side: SideIndices, parseJson: string -> Option<Json>): set<string>
  {
    SqlHashes(m, t) + Gathered(h, m, t, side, parseJson)
  }

  /** Re-hashing is harmless exactly when every address value is a numeral: then both gatherings agree. */
  lemma GatheringsAgreeOnNumerals(h: Hasher, m: Module, t: Ingest.Tables, side: SideIndices, parseJson: string -> Option<Json>)
    requires forall v :: v in AddressValues(m, side) ==> v == [] || IsAddress(v)
    ensures GatheredAsWritten(h, m, t, side, parseJson) == Gathered(h, m, t, side, parseJson)
  {
    var raw := RawKeys(m, t, side, parseJson);
    var vals := AddressValues(m, side);
    forall v | v in vals
      ensures (HashTextKey(h, v).Some? <==> v != []) && (v != [] ==> HashTextKey(h, v).value == v)
    {
      if v != [] {
        OwnAddressIff(h, v);
      }
    }
    assert Addresses(h, raw + vals) == Addresses(h, raw) + NonBlank(vals);
  }

  /** What `extract_hash_value` makes of a negative hash: its signed decimal text. */
  lemma NegativeHashText()
    ensures ExtractHashValue(Obj([("Hash", Int(-5))])) == Some("-5")
  {
    var j := Obj([("Hash", Int(-5))]);
    assert Get(j, "Hash") == Int(-5);
    assert NatToDecimal(5) == "5";
    assert IntToDecimal(-5) == "-5";
    StripNoop("-5");
  }

  /** A monster index with one monster, whose name address is "-5". */
  const SignedMonster: Json := Obj([("name_hash", Str("-5"))])
  const SignedSide: SideIndices := SideIndices(None, None, Some(([SignedMonster], [])))

  lemma SignedSideValues(t: Ingest.Tables, parseJson: string -> Option<Json>)
    ensures RawKeys(Monster, t, SignedSide, parseJson) == {}
    ensures AddressValues(Monster, SignedSide) == {"-5"}
  {
    assert Get(SignedMonster, "ability_name_keys") == Null;
    assert Get(SignedMonster, "name_hash") == Str("-5");
    assert Get(SignedMonster, "introduction_hash") == Null;
    assert StrMembers(SignedMonster, ["name_hash", "introduction_hash"]) == {"-5"};
  }

  /**
   * The re-hash drops an address: a monster whose name address is "-5"
   * (a `{"Hash": -5}` name) has "-5" in the corrected closure but not in the
   * one gathered as written, whatever the hasher does, so the module
   * database does not carry the text the monster page looks up under "-5".
   */
  lemma RehashDropsSignedAddress(h: Hasher, t: Ingest.Tables, parseJson: string -> Option<Json>)
    ensures "-5" !in GatheredAsWritten(h, Monster, t, SignedSide, parseJson)
    ensures "-5" in Gathered(h, Monster, t, SignedSide, parseJson)
  {
    SignedSideValues(t, parseJson);
    assert !IsAddress("-5") by {
      assert !IsDigit("-5"[0]);
    }
    OwnAddressIff(h, "-5");
    assert {} + {"-5"} == {"-5"};
    assert forall x :: x in Addresses(h, {"-5"}) ==> HashTextKey(h, "-5") == Some(x);
  }

  // ---------------------------------------------------------------------
  // The module database, step by step
  // ---------------------------------------------------------------------

  /** An output database: its copied tables, the temporary `needed_hash` set and its text_map. */
  class ModuleDb {
    var tables: Ingest.Tables
    var needed: set<string>
    var textMap: map<(string, string), string>

    /** A freshly created schema: every table empty. */
    constructor()
      ensures tables == Ingest.EmptyTables() && needed == {} && textMap == map[]
    {
      tables := Ingest.EmptyTables();
      needed := {};
      textMap := map[];
    }

    /** `copy_module_tables(conn, module)` */
    method CopyModuleTables(m: Module, src: Ingest.Tables)
      requires tables == Ingest.EmptyTables()
      modifies this
      ensures tables == ModuleTables(m, src)
      ensures needed == old(needed) && textMap == old(textMap)
    {
      tables := ModuleTables(m, src);
    }

    /** The `add_hashes_from_sql` calls of `gather_module_hashes`, over this database's own tables. */
    method AddHashesFromSql(m: Module)
      modifies this
      ensures needed == old(needed) + SqlHashes(m, tables)
      ensures tables == old(tables) && textMap == old(textMap)
    {
      needed := needed + SqlHashes(m, tables);
    }

    /** `add_hashes_from_iter(conn, hashes)`: INSERT OR IGNORE of each distinct non-empty hash. */
    method AddHashesFromIter(hashes: set<string>)
      modifies this
      ensures needed == old(needed) + NonBlank(hashes)
      ensures tables == old(tables) && textMap == old(textMap)
    {
      needed := needed + NonBlank(hashes);
    }

    /** `copy_text_map_for_hashes(conn, langs)`: the source rows of a needed hash in a requested language; the row count. */
    method CopyTextMapForHashes(src: map<(string, string), string>, langs: seq<string>) returns (count: nat)
      requires textMap == map[]
      modifies this
      ensures forall k :: k in textMap <==> k in src && k.0 in langs && k.1 in needed
      ensures forall k :: k in textMap ==> textMap[k] == src[k]
      ensures count == |textMap|
      ensures tables == old(tables) && needed == old(needed)
    {
      textMap := map k | k in src && k.0 in langs && k.1 in needed :: src[k];
      count := |textMap|;
    }
  }

  /** Hashing a union of keys is the union of their addresses. */
  lemma AddressesUnion(h: Hasher, a: set<string>, b: set<string>)
    ensures Addresses(h, a + b) == Addresses(h, a) + Addresses(h, b)
  {
    forall x | x in Addresses(h, a + b) ensures x in Addresses(h, a) + Addresses(h, b) {
      var k :| k in a + b && HashTextKey(h, k).Some? && HashTextKey(h, k).value == x;
      if k in a {
        assert x in Addresses(h, a);
      } else {
        assert x in Addresses(h, b);
      }
    }
  }

  /** One more key adds what `add_hash_if_any` adds. */
  lemma AddressesStep(h: Hasher, done: set<string>, k: string)
    ensures Addresses(h, done + {k}) == AddHashIfAny(h, Addresses(h, done), Some(k))
  {
    AddressesUnion(h, done, {k});
    var out := Addresses(h, done);
    if k == [] {
      assert Strip(k) == [];
      assert Addresses(h, {k}) == {};
      assert AddHashIfAny(h, out, Some(k)) == out;
    } else if HashTextKey(h, k).Some? {
      assert Addresses(h, {k}) == {HashTextKey(h, k).value};
      assert AddHashIfAny(h, out, Some(k)) == out + {HashTextKey(h, k).value};
    } else {
      assert Addresses(h, {k}) == {};
      assert AddHashIfAny(h, out, Some(k)) == out;
    }
  }

  /** The `add_hash_if_any` calls on the text keys. */
  method HashKeys(h: Hasher, keys: set<string>) returns (out: set<string>)
    ensures out == Addresses(h, keys)
  {
    out := {};
    var todo := keys;
    while todo != {}
      invariant todo <= keys
      invariant out == Addresses(h, keys - todo)
      decreases |todo|
    {
      var k :| k in todo;
      AddressesStep(h, keys - todo, k);
      out := AddHashIfAny(h, out, Some(k));
      assert keys - (todo - {k}) == (keys - todo) + {k};
      todo := todo - {k};
    }
    assert keys - todo == keys;
  }

  /** The corrected handling of values that are already addresses: each non-empty one is added as it is. */
  method AddValues(out0: set<string>, values: set<string>) returns (out: set<string>)
    ensures out == out0 + NonBlank(values)
  {
    out := out0;
    var rest := values;
    while rest != {}
      invariant rest <= values
      invariant out == out0 + NonBlank(values - rest)
      decreases |rest|
    {
      var v :| v in rest;
      if v != [] {
        out := out + {v};
      }
      assert NonBlank(values - (rest - {v})) == NonBlank(values - rest) + NonBlank({v});
      rest := rest - {v};
    }
    assert values - rest == values;
  }

  /** The loop of `gather_module_hashes` that fills `out` (corrected: addresses are not hashed again). */
  method GatherModuleHashes(h: Hasher, m: Module, t: Ingest.Tables, side: SideIndices, parseJson: string -> Option<Json>)
    returns (out: set<string>)
    ensures out == Gathered(h, m, t, side, parseJson)
  {
    out := HashKeys(h, RawKeys(m, t, side, parseJson));
    out := AddValues(out, AddressValues(m, side));
  }

  /**
   * `build_one_module`: copy the module's tables; then, only with text
   * embedding on, gather the closure from the copied tables and the side
   * indices and copy the text rows of the closure in the requested languages.
   */
  method BuildOneModule(src: Source, side: SideIndices, h: Hasher, parseJson: string -> Option<Json>,
                        m: Module, langs: seq<string>, withTextMap: bool)
    returns (db: ModuleDb, textRows: nat)
    ensures db.tables == ModuleTables(m, src.tables)
    ensures withTextMap ==>
              forall k :: k in db.textMap <==>
                k in src.textMap && k.0 in langs && k.1 in Closure(h, m, ModuleTables(m, src.tables), side, parseJson)
    ensures forall k :: k in db.textMap ==> k in src.textMap && db.textMap[k] == src.textMap[k]
    ensures !withTextMap ==> db.textMap == map[]
    ensures textRows == |db.textMap|
  {
    db := new ModuleDb();
    db.CopyModuleTables(m, src.tables);
    textRows := 0;
    if withTextMap {
      db.AddHashesFromSql(m);
      var extra := GatherModuleHashes(h, m, db.tables, side, parseJson);
      db.AddHashesFromIter(extra);
      assert NonBlank(extra) == extra by {
        forall a | a in extra ensures a != [] {
          var keys := RawKeys(m, db.tables, side, parseJson);
          if a in Addresses(h, keys) {
            var k :| k in keys && HashTextKey(h, k).Some? && HashTextKey(h, k).value == a;
            HashTextKeyIsAddress(h, k);
          }
        }
      }
      textRows := db.CopyTextMapForHashes(src.textMap, langs);
    }
  }

  // ---------------------------------------------------------------------
  // What each closure contains
  // ---------------------------------------------------------------------

  /** Copying first loses nothing the closure reads: the copied tables give the same closure as the full ones. */
  lemma CopyKeepsClosure(h: Hasher, m: Module, t: Ingest.Tables, side: SideIndices, parseJson: string -> Option<Json>)
    ensures Closure(h, m, ModuleTables(m, t), side, parseJson) == Closure(h, m, t, side, parseJson)
  {
  }

  /**
   * The character closure holds every non-empty name, full-name, skill name,
   * description and tag hash, the address of every rank name, description
   * and ability string, and every story and story-name address.
   */
  lemma AvatarClosureComplete(h: Hasher, t: Ingest.Tables, side: SideIndices, parseJson: string -> Option<Json>)
    ensures var c := Closure(h, Avatar, t, side, parseJson);
            (forall r | r in t.avatar.Values ::
               (NonEmpty(r.name.hash) ==> r.name.hash.value in c) && (NonEmpty(r.fullName.hash) ==> r.fullName.hash.value in c))
            && (forall r | r in t.skill.Values ::
                  (NonEmpty(r.name.hash) ==> r.name.hash.value in c) && (NonEmpty(r.desc.hash) ==> r.desc.hash.value in c)
                  && (NonEmpty(r.tag.hash) ==> r.tag.hash.value in c))
            && (forall r | r in t.rank.Values ::
                  (r.nameRaw.Some? && HashTextKey(h, r.nameRaw.value).Some? ==> HashTextKey(h, r.nameRaw.value).value in c)
                  && (r.descRaw.Some? && HashTextKey(h, r.descRaw.value).Some? ==> HashTextKey(h, r.descRaw.value).value in c)
                  && (forall k | k in RankAbilityKeys(parseJson, r) && HashTextKey(h, k).Some? :: HashTextKey(h, k).value in c))
            && (forall v | v in AddressValues(Avatar, side) && v != [] :: v in c)
  {
    var c := Closure(h, Avatar, t, side, parseJson);
    var keys := RawKeys(Avatar, t, side, parseJson);
    forall r | r in t.rank.Values
      ensures r.nameRaw.Some? && HashTextKey(h, r.nameRaw.value).Some? ==> HashTextKey(h, r.nameRaw.value).value in c
      ensures r.descRaw.Some? && HashTextKey(h, r.descRaw.value).Some? ==> HashTextKey(h, r.descRaw.value).value in c
    {
      if r.nameRaw.Some? && HashTextKey(h, r.nameRaw.value).Some? {
        assert r.nameRaw.value in keys;
      }
      if r.descRaw.Some? && HashTextKey(h, r.descRaw.value).Some? {
        assert r.descRaw.value in keys;
      }
    }
  }

  /** The monster closure holds the address of every ability-name key and every name, introduction and skill address. */
  lemma MonsterClosureComplete(h: Hasher, t: Ingest.Tables, items: seq<Json>, skills: seq<Json>, parseJson: string -> Option<Json>)
    ensures var side := SideIndices(None, None, Some((items, skills)));
            var c := Closure(h, Monster, t, side, parseJson);
            (forall item, k | item in items && item.Obj? && k in StrItems(Get(item, "ability_name_keys")) && HashTextKey(h, k).Some? ::
               HashTextKey(h, k).value in c)
            && (forall item, a | item in items && a in StrMembers(item, ["name_hash", "introduction_hash"]) && a != [] :: a in c)
            && (forall s, a | s in skills && a in StrMembers(s, ["name_hash", "desc_hash", "type_desc_hash", "tag_hash"]) && a != [] :: a in c)
  {
  }

  /** The dialogue closure holds every non-empty speaker and text hash. */
  lemma DialogueClosureComplete(h: Hasher, t: Ingest.Tables, side: SideIndices, parseJson: string -> Option<Json>)
    ensures var c := Closure(h, Dialogue, t, side, parseJson);
            forall r | r in t.talk.Values ::
              (NonEmpty(r.speaker.hash) ==> r.speaker.hash.value in c) && (NonEmpty(r.text.hash) ==> r.text.hash.value in c)
  {
  }

  /** The mission closure holds every non-empty main-mission name and sub-mission target and description hash. */
  lemma MissionClosureComplete(h: Hasher, t: Ingest.Tables, side: SideIndices, parseJson: string -> Option<Json>)
    ensures var c := Closure(h, Mission, t, side, parseJson);
            (forall r | r in t.mainMission.Values :: NonEmpty(r.name.hash) ==> r.name.hash.value in c)
            && (forall r | r in t.subMission.Values ::
                  (NonEmpty(r.target.hash) ==> r.target.hash.value in c)
                  && (NonEmpty(r.description.hash) ==> r.description.hash.value in c))
  {
  }

  /** The item closure holds its item hashes and every light-cone level's skill name and description address. */
  lemma ItemClosureComplete(h: Hasher, t: Ingest.Tables, lightCones: seq<Json>, parseJson: string -> Option<Json>)
    ensures var c := Closure(h, Item, t, SideIndices(None, Some(lightCones), None), parseJson);
            (forall r | r in t.item.Values ::
               (NonEmpty(r.name.hash) ==> r.name.hash.value in c) && (NonEmpty(r.desc.hash) ==> r.desc.hash.value in c)
               && (NonEmpty(r.bgDesc.hash) ==> r.bgDesc.hash.value in c))
            && (forall e, a | e in lightCones && a in LightConeHashes(e) && a != [] :: a in c)
  {
  }

  /**
   * A module database answers a text lookup exactly as the full database
   * does, for every requested language and every address in its closure.
   */
  lemma ModuleTextMatchesSource(src: Source, side: SideIndices, h: Hasher, parseJson: string -> Option<Json>,
                                m: Module, langs: seq<string>, textMap: map<(string, string), string>,
                                lang: string, a: string)
    requires forall k :: k in textMap <==>
               k in src.textMap && k.0 in langs && k.1 in Closure(h, m, ModuleTables(m, src.tables), side, parseJson)
    requires forall k :: k in textMap ==> k in src.textMap && textMap[k] == src.textMap[k]
    requires lang in langs && a in Closure(h, m, src.tables, side, parseJson)
    ensures (lang, a) in textMap <==> (lang, a) in src.textMap
    ensures (lang, a) in textMap ==> textMap[(lang, a)] == src.textMap[(lang, a)]
  {
    CopyKeepsClosure(h, m, src.tables, side, parseJson);
  }
}
