/**
 * admin/src/routes/characters.ts: the list page's display faction, the skill
 * tree assembled from the `RK<n>_left`/`RK<n>_right` fields, the create and
 * update inputs (conditional spreads) and the grouping of skills by category
 * offered on the forms.
 */
module Characters {
  import opened Base
  import opened Json
  import opened Text
  import opened Forms
  import Store
  import Models
  import Repository
  import Skills

  // ---------------------------------------------------------------------------
  // The display faction on the list page

  /** The factions shown in preference to any other, highest first. */
  const PriorityFactions: seq<string> := ["鈴蘭の剣", "イリヤ", "騎士連合", "法皇国", "ウィルダ", "漂泊者"]

  /** `character.factionIds && character.factionIds.length > 0`. */
  predicate HasFactions(ids: Value)
  {
    (ids.Arr? && |ids.items| > 0) || (ids.Str? && |ids.s| > 0)
  }

  /**
   * `ids.includes(id)`: for an array, an element equal to `id` (arrays and
   * objects are compared by reference and so never equal a parsed id); for a
   * string, `id` as a substring.
   */
  predicate Holds(ids: Value, id: Value)
  {
    if ids.Arr? then !id.Arr? && !id.Obj? && id in ids.items
    else if ids.Str? then id.Str? && Contains(ids.s, id.s)
    else false
  }

  /** The loop over the priority list: the first name whose first faction the character holds. */
  function PriorityPick(factions: seq<Record>, ids: Value, names: seq<string>): (r: Option<Record>)
    ensures r.Some? ==> r.value in factions && Holds(ids, Get(r.value, "id")) && Get(r.value, "name").Str?
    ensures r.Some? ==> Get(r.value, "name").s in names
    decreases |names|
  {
    if names == [] then None
    else
      var faction := Store.Find(factions, "name", Str(names[0]));
      if faction.Some? && Holds(ids, Get(faction.value, "id")) then faction
      else PriorityPick(factions, ids, names[1..])
  }

  /** No faction before index `j` is held. */
  predicate FirstFrom(factions: seq<Record>, ids: Value, j: int)
  {
    forall i :: 0 <= i < j && i < |factions| ==> !Holds(ids, Get(factions[i], "id"))
  }

  /** `factions.find(f => ids.includes(f.id))`. */
  function FirstHeld(factions: seq<Record>, ids: Value): (r: Option<Record>)
    ensures r.None? <==> forall j :: 0 <= j < |factions| ==> !Holds(ids, Get(factions[j], "id"))
    ensures r.Some? ==> r.value in factions && Holds(ids, Get(r.value, "id"))
    ensures r.Some? ==> exists j :: 0 <= j < |factions| && factions[j] == r.value && FirstFrom(factions, ids, j)
    decreases |factions|
  {
    if |factions| == 0 then None
    else if Holds(ids, Get(factions[0], "id")) then Some(factions[0])
    else
      var r := FirstHeld(factions[1..], ids);
      if r.Some? then
        var j :| 0 <= j < |factions| - 1 && factions[1..][j] == r.value && FirstFrom(factions[1..], ids, j);
        assert factions[j + 1] == r.value;
        assert FirstFrom(factions, ids, j + 1) by {
          forall i | 0 <= i < j + 1 ensures !Holds(ids, Get(factions[i], "id")) {
            if i > 0 {
              assert factions[i] == factions[1..][i - 1];
            }
          }
        }
        r
      else r
  }

  /** The faction shown for a character: a priority faction, else the first one held, else none. */
  function DisplayFactionOf(factions: seq<Record>, character: Record): Option<Record>
  {
    var ids := Get(character, "factionIds");
    if !HasFactions(ids) then None
    else
      var p := PriorityPick(factions, ids, PriorityFactions);
      if p.Some? then p else FirstHeld(factions, ids)
  }

  /** The loop with its `break`, then the fallback. */
  method DisplayFaction(factions: seq<Record>, character: Record) returns (shown: Option<Record>)
    ensures shown == DisplayFactionOf(factions, character)
  {
    shown := None;
    var ids := Get(character, "factionIds");
    if HasFactions(ids) {
      for i := 0 to |PriorityFactions|
        invariant shown.None? ==>
          PriorityPick(factions, ids, PriorityFactions) == PriorityPick(factions, ids, PriorityFactions[i..])
        invariant shown.Some? ==> shown == PriorityPick(factions, ids, PriorityFactions)
      {
        var faction := Store.Find(factions, "name", Str(PriorityFactions[i]));
        assert PriorityFactions[i..][1..] == PriorityFactions[i + 1..];
        if faction.Some? && Holds(ids, Get(faction.value, "id")) {
          shown := faction;
          break;
        }
      }
      if shown.None? {
        assert PriorityFactions[|PriorityFactions|..] == [];
        shown := FirstHeld(factions, ids);
      }
    }
  }

  /** The faction shown is one of the list that the character holds. */
  lemma DisplayFactionHeld(factions: seq<Record>, character: Record)
    requires DisplayFactionOf(factions, character).Some?
    ensures DisplayFactionOf(factions, character).value in factions
    ensures Holds(Get(character, "factionIds"), Get(DisplayFactionOf(factions, character).value, "id"))
  {
  }

  /** No faction is shown exactly when the character has none, or holds none of the list. */
  lemma DisplayFactionNone(factions: seq<Record>, character: Record)
    ensures var ids := Get(character, "factionIds");
      DisplayFactionOf(factions, character).None? <==>
        !HasFactions(ids) || forall j :: 0 <= j < |factions| ==> !Holds(ids, Get(factions[j], "id"))
  {
    var ids := Get(character, "factionIds");
    var p := PriorityPick(factions, ids, PriorityFactions);
    if p.Some? {
      var j :| 0 <= j < |factions| && factions[j] == p.value;
    }
  }

  /**
   * When the first faction named `names[j]` is held, the pick is a faction
   * named `names[i]` with `i <= j`.
   */
  lemma {:induction false} PriorityPickWins(factions: seq<Record>, ids: Value, names: seq<string>, j: nat)
    requires j < |names|
    requires var f := Store.Find(factions, "name", Str(names[j])); f.Some? && Holds(ids, Get(f.value, "id"))
    ensures PriorityPick(factions, ids, names).Some?
    ensures Get(PriorityPick(factions, ids, names).value, "name").Str?
    ensures Get(PriorityPick(factions, ids, names).value, "name").s in names[..j + 1]
    decreases j
  {
    var f := Store.Find(factions, "name", Str(names[0]));
    if f.Some? && Holds(ids, Get(f.value, "id")) {
      assert Get(f.value, "name") == Str(names[0]);
      assert names[0] == names[..j + 1][0];
    } else {
      assert j > 0;
      assert names[1..][j - 1] == names[j];
      PriorityPickWins(factions, ids, names[1..], j - 1);
      assert names[1..][..j] == names[1..j + 1];
    }
  }

  /** A held priority faction is shown ahead of every faction of lower priority and of any other faction. */
  lemma PriorityFactionShown(factions: seq<Record>, character: Record, j: nat)
    requires HasFactions(Get(character, "factionIds")) && j < |PriorityFactions|
    requires var f := Store.Find(factions, "name", Str(PriorityFactions[j]));
      f.Some? && Holds(Get(character, "factionIds"), Get(f.value, "id"))
    ensures DisplayFactionOf(factions, character).Some?
    ensures Get(DisplayFactionOf(factions, character).value, "name").Str?
    ensures Get(DisplayFactionOf(factions, character).value, "name").s in PriorityFactions[..j + 1]
  {
    PriorityPickWins(factions, Get(character, "factionIds"), PriorityFactions, j);
  }

  /** A row of the list page: the character with its rarity and its display faction. */
  function WithDetails(character: Record, rarities: seq<Record>, factions: seq<Record>): Record
  {
    var rarity := Store.Find(rarities, "id", Get(character, "rarityId"));
    var faction := DisplayFactionOf(factions, character);
    character["rarity" := if rarity.Some? then Obj(rarity.value) else Undefined]
      ["faction" := if faction.Some? then Obj(faction.value) else Null]
  }

  /** A row keeps every other property of the character; the rarity is `undefined` when none matches, the faction `null`. */
  lemma WithDetailsShape(character: Record, rarities: seq<Record>, factions: seq<Record>)
    ensures var row := WithDetails(character, rarities, factions);
      && row - {"rarity", "faction"} == character - {"rarity", "faction"}
      && "rarity" in row && "faction" in row
      && (Store.Find(rarities, "id", Get(character, "rarityId")).None? <==> row["rarity"] == Undefined)
      && (DisplayFactionOf(factions, character).None? <==> row["faction"] == Null)
  {
  }

  /** GET `/`: every character of the file, in order, with its details. */
  method Index(repo: Repository.JsonFile, rarities: seq<Record>, factions: seq<Record>) returns (rows: seq<Record>)
    ensures |rows| == |repo.contents|
    ensures forall i :: 0 <= i < |rows| ==> rows[i] == WithDetails(repo.contents[i], rarities, factions)
  {
    var characters := repo.List();
    rows := [];
    for i := 0 to |characters|
      invariant |rows| == i
      invariant forall k :: 0 <= k < i ==> rows[k] == WithDetails(characters[k], rarities, factions)
    {
      var row := Detail(characters[i], rarities, factions);
      rows := rows + [row];
    }
  }

  /** The body of the `map` callback: the rarity by id and the display faction. */
  method Detail(character: Record, rarities: seq<Record>, factions: seq<Record>) returns (row: Record)
    ensures row == WithDetails(character, rarities, factions)
  {
    var rarity := Store.Find(rarities, "id", Get(character, "rarityId"));
    var faction := DisplayFaction(factions, character);
    row := character["rarity" := if rarity.Some? then Obj(rarity.value) else Undefined]
      ["faction" := if faction.Some? then Obj(faction.value) else Null];
  }

  // ---------------------------------------------------------------------------
  // Skills offered on the forms

  datatype Categories = Categories(personality: seq<Record>, normal: seq<Record>, ex: seq<Record>)

  /** `all.filter((s) => s.skillCategory === category)`, in list order. */
  function OfCategory(all: seq<Record>, category: string): (r: seq<Record>)
    ensures forall s :: s in r <==> s in all && Get(s, "skillCategory") == Str(category)
    decreases |all|
  {
    if |all| == 0 then []
    else (if Get(all[0], "skillCategory") == Str(category) then [all[0]] else []) + OfCategory(all[1..], category)
  }

  /** A list with no skill of the category gives an empty group. */
  lemma {:induction false} OfCategoryNone(all: seq<Record>, category: string)
    requires forall i :: 0 <= i < |all| ==> Get(all[i], "skillCategory") != Str(category)
    ensures OfCategory(all, category) == []
    decreases |all|
  {
    if |all| > 0 {
      OfCategoryNone(all[1..], category);
    }
  }

  /** `categorizeSkills()`: three filters of the skill list on `skillCategory`. */
  function Categorize(all: seq<Record>): Categories
  {
    Categories(OfCategory(all, "個性"), OfCategory(all, "通常"), OfCategory(all, "EX"))
  }

  /** Each group holds exactly the skills of its category; a skill of any other category is in none. */
  lemma CategorizeExact(all: seq<Record>, s: Record)
    ensures var c := Categorize(all);
      && (s in c.personality <==> s in all && Get(s, "skillCategory") == Str("個性"))
      && (s in c.normal <==> s in all && Get(s, "skillCategory") == Str("通常"))
      && (s in c.ex <==> s in all && Get(s, "skillCategory") == Str("EX"))
  {
  }

  /**
   * A Skill declares no `skillCategory`, so over skills of that shape, and
   * over the inputs the skill create handler stores, all three groups are empty.
   */
  lemma SkillsAreUncategorized(all: seq<Record>)
    requires forall i :: 0 <= i < |all| ==> Models.Conforms(all[i], Models.SkillSchema)
    ensures Categorize(all) == Categories([], [], [])
  {
    assert "skillCategory" !in Models.SkillSchema;
    forall i | 0 <= i < |all| ensures Get(all[i], "skillCategory") == Undefined {
      assert Models.Fits(Obj(all[i]), Models.ObjectOf(Models.SkillSchema));
    }
    OfCategoryNone(all, "個性");
    OfCategoryNone(all, "通常");
    OfCategoryNone(all, "EX");
  }

  lemma CreatedSkillUncategorized(id: string, f: Form, iconFile: Option<UploadedFile>, rangeFile: Option<UploadedFile>)
    ensures Get(Store.Created(id, Skills.CreateInput(f, iconFile, rangeFile)), "skillCategory") == Undefined
  {
    Skills.CreateInputKeys(f, iconFile, rangeFile);
    assert "skillCategory" != "id";
  }

  // ---------------------------------------------------------------------------
  // The skill tree

  /** `buildNode(rk)` as a value: `left`/`right` when truthy, nothing when neither is. */
  function NodeOf(f: Form, rk: string): Option<Record>
  {
    var left := FieldValue(f, rk + "_left");
    var right := FieldValue(f, rk + "_right");
    var node := (if Truthy(left) then map["left" := left] else map[]) + (if Truthy(right) then map["right" := right] else map[]);
    if node == map[] then None else Some(node)
  }

  /** `buildNode(rk)`: fills a fresh object and returns it when it has a key. */
  method BuildNode(f: Form, rk: string) returns (node: Option<Record>)
    ensures node == NodeOf(f, rk)
  {
    var left := FieldValue(f, rk + "_left");
    var right := FieldValue(f, rk + "_right");
    var fields: Record := map[];
    if Truthy(left) {
      fields := fields["left" := left];
    }
    if Truthy(right) {
      fields := fields["right" := right];
    }
    assert fields == (if Truthy(left) then map["left" := left] else map[]) + (if Truthy(right) then map["right" := right] else map[]);
    node := if fields == map[] then None else Some(fields);
  }

  /** A node keeps exactly the truthy sides, and there is none when both are empty. */
  lemma NodeShape(f: Form, rk: string)
    ensures var left := FieldValue(f, rk + "_left");
      var right := FieldValue(f, rk + "_right");
      && (NodeOf(f, rk).None? <==> !Truthy(left) && !Truthy(right))
      && (NodeOf(f, rk).Some? ==>
            && NodeOf(f, rk).value.Keys <= {"left", "right"}
            && ("left" in NodeOf(f, rk).value <==> Truthy(left))
            && ("right" in NodeOf(f, rk).value <==> Truthy(right))
            && ("left" in NodeOf(f, rk).value ==> NodeOf(f, rk).value["left"] == left)
            && ("right" in NodeOf(f, rk).value ==> NodeOf(f, rk).value["right"] == right))
  {
    var left := FieldValue(f, rk + "_left");
    var right := FieldValue(f, rk + "_right");
    var node := (if Truthy(left) then map["left" := left] else map[]) + (if Truthy(right) then map["right" := right] else map[]);
    if Truthy(left) {
      assert "left" in node;
    } else if Truthy(right) {
      assert "right" in node;
    }
  }

  const Ranks: set<string> := {"RK1", "RK3", "RK5", "RK7", "RK9", "RK11"}

  /** The entries of `ranks` whose node is defined. */
  function TreeOf(f: Form, ranks: set<string>): Record
  {
    map rk | rk in ranks && NodeOf(f, rk).Some? :: Obj(NodeOf(f, rk).value)
  }

  /** `Object.fromEntries(Object.entries(potentialTree).filter(([, v]) => v))`. */
  function SkillTree(f: Form): Record
  {
    TreeOf(f, Ranks)
  }

  /** `tree` with the node of `rk` added when it is defined. */
  function Extend(tree: Record, f: Form, rk: string): Record
  {
    if NodeOf(f, rk).Some? then tree[rk := Obj(NodeOf(f, rk).value)] else tree
  }

  method AddNode(tree: Record, f: Form, rk: string) returns (t: Record)
    ensures t == Extend(tree, f, rk)
  {
    var node := BuildNode(f, rk);
    t := tree;
    if node.Some? {
      t := t[rk := Obj(node.value)];
    }
  }

  lemma TreeStep(f: Form, ranks: set<string>, rk: string)
    ensures TreeOf(f, ranks + {rk}) == Extend(TreeOf(f, ranks), f, rk)
  {
  }

  /** The six `buildNode` calls and the filter on defined nodes. */
  method BuildSkillTree(f: Form) returns (tree: Record)
    ensures tree == SkillTree(f)
  {
    ghost var done: set<string> := {};
    tree := map[];
    assert tree == TreeOf(f, done);
    tree := AddNode(tree, f, "RK1");
    TreeStep(f, done, "RK1");
    done := done + {"RK1"};
    tree := AddNode(tree, f, "RK3");
    TreeStep(f, done, "RK3");
    done := done + {"RK3"};
    tree := AddNode(tree, f, "RK5");
    TreeStep(f, done, "RK5");
    done := done + {"RK5"};
    tree := AddNode(tree, f, "RK7");
    TreeStep(f, done, "RK7");
    done := done + {"RK7"};
    tree := AddNode(tree, f, "RK9");
    TreeStep(f, done, "RK9");
    done := done + {"RK9"};
    tree := AddNode(tree, f, "RK11");
    TreeStep(f, done, "RK11");
    done := done + {"RK11"};
    SixFieldsAdded("RK1", "RK3", "RK5", "RK7", "RK9", "RK11");
  }

  /** The tree holds exactly the ranks with a defined node, each as that node. */
  lemma SkillTreeExact(f: Form, rk: string)
    ensures rk in SkillTree(f) <==> rk in Ranks && NodeOf(f, rk).Some?
    ensures rk in SkillTree(f) ==> SkillTree(f)[rk] == Obj(NodeOf(f, rk).value)
    ensures (set r | r in Ranks) == (set r | r in Models.SkillTreeRanks)
  {
  }

  /** With single-valued fields, a node is a `{ left?: string; right?: string }`. */
  lemma NodeFits(f: Form, rk: string)
    requires (rk + "_left") in f ==> f[rk + "_left"].One?
    requires (rk + "_right") in f ==> f[rk + "_right"].One?
    requires NodeOf(f, rk).Some?
    ensures Models.Fits(Obj(NodeOf(f, rk).value), Models.ObjectOf(Models.SkillTreeNodeSchema))
  {
    NodeShape(f, rk);
  }

  /** With single-valued fields, the tree is a `CharacterSkillTree`. */
  lemma SkillTreeFits(f: Form)
    requires forall rk :: rk in Ranks && (rk + "_left") in f ==> f[rk + "_left"].One?
    requires forall rk :: rk in Ranks && (rk + "_right") in f ==> f[rk + "_right"].One?
    ensures Models.Fits(Obj(SkillTree(f)), Models.ObjectOf(Models.SkillTreeSchema))
  {
    var t := SkillTree(f);
    forall rk | rk in t
      ensures rk in Models.SkillTreeSchema
      ensures Models.Fits(t[rk], Models.SkillTreeSchema[rk].shape)
    {
      NodeFits(f, rk);
    }
  }

  // ---------------------------------------------------------------------------
  // Create and update inputs

  /** `path.replace(/\\/g, '/')`. */
  function ForwardSlashes(p: string): string
  {
    ReplaceChar(p, '\\', '/')
  }

  /** The stored path has no backslash, keeps every other character, and converting it again changes nothing. */
  lemma BackslashesReplaced(p: string)
    ensures forall i :: 0 <= i < |p| ==> ForwardSlashes(p)[i] != '\\'
    ensures forall i :: 0 <= i < |p| && p[i] != '\\' ==> ForwardSlashes(p)[i] == p[i]
    ensures ForwardSlashes(ForwardSlashes(p)) == ForwardSlashes(p)
  {
  }

  /** `files.x?.[0] ? { x: files.x[0].path.replace(/\\/g, '/') } : {}`. */
  function Appearance(file: Option<UploadedFile>): Option<Value>
  {
    if file.Some? then Some(Str(ForwardSlashes(file.value.path))) else None
  }

  /** `exSkillIds.length ? { exSkillIds } : {}` and the same for `factionIds` on update. */
  function NonEmptyList(v: Value): Option<Value>
  {
    var l := ToList(v);
    if |l.items| > 0 then Some(l) else None
  }

  const InputKeys: set<string> :=
    {"name", "rarityId", "roleId", "factionIds", "weaponType", "personalitySkillId", "skillTree", "exSkillIds",
     "normalAppearance", "pixelAvatar"}

  /** Property `k` of the create input, `None` when its spread adds nothing. */
  function CreateEntry(f: Form, tree: Record, normal: Option<UploadedFile>, pixel: Option<UploadedFile>, k: string): Option<Value>
  {
    var v := FieldValue(f, k);
    if k == "name" || k == "rarityId" || k == "roleId" || k == "weaponType" then Some(v)
    else if k == "factionIds" then Some(ToList(v))
    else if k == "personalitySkillId" then (if Truthy(v) then Some(v) else None)
    else if k == "skillTree" then (if tree != map[] then Some(Obj(tree)) else None)
    else if k == "exSkillIds" then NonEmptyList(v)
    else if k == "normalAppearance" then Appearance(normal)
    else if k == "pixelAvatar" then Appearance(pixel)
    else None
  }

  function CreateFrom(f: Form, tree: Record, normal: Option<UploadedFile>, pixel: Option<UploadedFile>): Record
  {
    map k | k in InputKeys && CreateEntry(f, tree, normal, pixel, k).Some? :: CreateEntry(f, tree, normal, pixel, k).value
  }

  /** The create input for the form and its two optional uploads. */
  function CreateInput(f: Form, normal: Option<UploadedFile>, pixel: Option<UploadedFile>): Record
  {
    CreateFrom(f, SkillTree(f), normal, pixel)
  }

  /** Property `k` of the update input: every property only when truthy or non-empty. */
  function UpdateEntry(f: Form, tree: Record, normal: Option<UploadedFile>, pixel: Option<UploadedFile>, k: string): Option<Value>
  {
    var v := FieldValue(f, k);
    if k == "name" || k == "rarityId" || k == "roleId" || k == "weaponType" || k == "personalitySkillId" then
      (if Truthy(v) then Some(v) else None)
    else if k == "factionIds" then NonEmptyList(v)
    else CreateEntry(f, tree, normal, pixel, k)
  }

  function UpdateFrom(f: Form, tree: Record, normal: Option<UploadedFile>, pixel: Option<UploadedFile>): Record
  {
    map k | k in InputKeys && UpdateEntry(f, tree, normal, pixel, k).Some? :: UpdateEntry(f, tree, normal, pixel, k).value
  }

  function UpdateInput(f: Form, normal: Option<UploadedFile>, pixel: Option<UploadedFile>): Record
  {
    UpdateFrom(f, SkillTree(f), normal, pixel)
  }

  /** The create input always carries the five plain properties, `factionIds` normalised to a list. */
  lemma CreateInputPlain(f: Form, normal: Option<UploadedFile>, pixel: Option<UploadedFile>)
    ensures var input := CreateInput(f, normal, pixel);
      && {"name", "rarityId", "roleId", "factionIds", "weaponType"} <= input.Keys
      && input["name"] == FieldValue(f, "name")
      && input["factionIds"] == ToList(FieldValue(f, "factionIds"))
  {
  }

  /** The other properties of the create input are there only when non-empty. */
  lemma CreateInputOptional(f: Form, normal: Option<UploadedFile>, pixel: Option<UploadedFile>)
    ensures var input := CreateInput(f, normal, pixel);
      && ("personalitySkillId" in input <==> Truthy(FieldValue(f, "personalitySkillId")))
      && ("skillTree" in input <==> SkillTree(f) != map[])
      && ("exSkillIds" in input <==> Truthy(FieldValue(f, "exSkillIds")) && FieldValue(f, "exSkillIds") != Arr([]))
      && ("normalAppearance" in input <==> normal.Some?)
      && ("pixelAvatar" in input <==> pixel.Some?)
  {
    var t := SkillTree(f);
    CreateFromHas(f, t, normal, pixel, "personalitySkillId");
    CreateFromHas(f, t, normal, pixel, "skillTree");
    CreateFromHas(f, t, normal, pixel, "exSkillIds");
    CreateFromHas(f, t, normal, pixel, "normalAppearance");
    CreateFromHas(f, t, normal, pixel, "pixelAvatar");
  }

  lemma CreateFromHas(f: Form, tree: Record, normal: Option<UploadedFile>, pixel: Option<UploadedFile>, k: string)
    requires k in InputKeys
    ensures k in CreateFrom(f, tree, normal, pixel) <==> CreateEntry(f, tree, normal, pixel, k).Some?
  {
  }

  /** Every value the update input takes from a form field is truthy: a blank field never clears a stored property. */
  lemma UpdateInputTruthy(f: Form, normal: Option<UploadedFile>, pixel: Option<UploadedFile>, k: string)
    requires k in UpdateInput(f, normal, pixel) && k != "normalAppearance" && k != "pixelAvatar"
    ensures Truthy(UpdateInput(f, normal, pixel)[k])
  {
    UpdateEntryTruthy(f, SkillTree(f), normal, pixel, k);
  }

  lemma UpdateEntryTruthy(f: Form, tree: Record, normal: Option<UploadedFile>, pixel: Option<UploadedFile>, k: string)
    requires UpdateEntry(f, tree, normal, pixel, k).Some? && k != "normalAppearance" && k != "pixelAvatar"
    ensures Truthy(UpdateEntry(f, tree, normal, pixel, k).value)
  {
  }

  /** Merged into a stored character, a blank or missing field keeps the stored property. */
  lemma BlankFieldKeeps(stored: Record, f: Form, normal: Option<UploadedFile>, pixel: Option<UploadedFile>, id: string, k: string)
    requires k in {"name", "rarityId", "roleId", "weaponType", "personalitySkillId", "factionIds", "exSkillIds"}
    requires k !in f || f[k] == One("")
    ensures Get(Store.Merge(stored, UpdateInput(f, normal, pixel), id), k) == Get(stored, k)
  {
    assert k !in UpdateInput(f, normal, pixel);
  }

  /** An uploaded appearance is stored under its path with forward slashes. */
  lemma UploadStoresPath(stored: Record, f: Form, normal: Option<UploadedFile>, pixel: Option<UploadedFile>, id: string)
    requires normal.Some?
    ensures Get(Store.Merge(stored, UpdateInput(f, normal, pixel), id), "normalAppearance") == Str(ForwardSlashes(normal.value.path))
    ensures Get(Store.Created(id, CreateInput(f, normal, pixel)), "normalAppearance") == Str(ForwardSlashes(normal.value.path))
  {
    assert UpdateEntry(f, SkillTree(f), normal, pixel, "normalAppearance") == Some(Str(ForwardSlashes(normal.value.path)));
    assert CreateEntry(f, SkillTree(f), normal, pixel, "normalAppearance") == Some(Str(ForwardSlashes(normal.value.path)));
  }

  // ---------------------------------------------------------------------------
  // Handlers

  /** POST `/`: creates the character under the id `generateId()` produced. */
  method Create(repo: Repository.JsonFile, id: string, f: Form, normal: Option<UploadedFile>, pixel: Option<UploadedFile>)
    returns (resp: Response)
    requires repo.Valid()
    modifies repo
    ensures repo.Valid()
    ensures repo.contents == Store.AfterCreate(old(repo.contents), id, CreateInput(f, normal, pixel))
    ensures resp == Redirect("/characters")
  {
    var tree := BuildSkillTree(f);
    var input := CreateFrom(f, tree, normal, pixel);
    var _ := repo.Create(id, input);
    resp := Redirect("/characters");
  }

  /** GET `/:id/edit`: 404 for an unknown character. */
  method Edit(repo: Repository.JsonFile, id: string) returns (resp: Response, character: Option<Record>)
    ensures character == Store.FindById(repo.contents, id)
    ensures resp == if character.None? then NotFound else Page
  {
    character := repo.FindById(id);
    assert character == Store.FindById(repo.contents, id);
    resp := if character.None? then NotFound else Page;
  }

  /** POST `/:id`: 400 without an id; otherwise the merge, whose result is ignored. */
  method Update(repo: Repository.JsonFile, id: string, f: Form, normal: Option<UploadedFile>, pixel: Option<UploadedFile>)
    returns (resp: Response)
    requires repo.Valid()
    modifies repo
    ensures repo.Valid()
    ensures id == "" ==> resp == BadRequest && repo.contents == old(repo.contents)
    ensures id != "" ==>
      resp == Redirect("/characters") && repo.contents == Store.AfterUpdate(old(repo.contents), id, UpdateInput(f, normal, pixel))
  {
    var tree := BuildSkillTree(f);
    var input := UpdateFrom(f, tree, normal, pixel);
    if id == "" {
      return BadRequest;
    }
    var _ := repo.Update(id, input);
    resp := Redirect("/characters");
  }

  /** POST `/:id/delete`: the result of the deletion is ignored. */
  method Delete(repo: Repository.JsonFile, id: string) returns (resp: Response)
    requires repo.Valid()
    modifies repo
    ensures repo.Valid()
    ensures repo.contents == Store.AfterDelete(old(repo.contents), id)
    ensures resp == Redirect("/characters")
  {
    var _ := repo.Delete(id);
    resp := Redirect("/characters");
  }
}
