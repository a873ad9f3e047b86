/**
 * The record shapes of the catalog: the string enumerations stored verbatim in
 * the JSON files, and each TypeScript interface written as a schema (a map from
 * property name to the shape its value must have, whether the property may be
 * left out and whether it may be `null`). `Omit` and `Partial` are TypeScript's
 * utility types over such schemas.
 */
module Models {
  import opened Base
  import opened Json
  import Store

  // ---------------------------------------------------------------------------
  // Enumerations (the labels are the values written to disk)

  /** A character's weapon type. */
  datatype WeaponType = Sword | Spear | Axe | Staff | Bow

  function WeaponTypeLabel(w: WeaponType): string
  {
    match w
    case Sword => "剣"
    case Spear => "槍"
    case Axe => "斧"
    case Staff => "杖"
    case Bow => "弓"
  }

  const WeaponTypeLabels: set<string> := {"剣", "槍", "斧", "杖", "弓"}

  function ParseWeaponType(s: string): (r: Option<WeaponType>)
    ensures r.Some? <==> s in WeaponTypeLabels
    ensures r.Some? ==> WeaponTypeLabel(r.value) == s
  {
    if s == "剣" then Some(Sword)
    else if s == "槍" then Some(Spear)
    else if s == "斧" then Some(Axe)
    else if s == "杖" then Some(Staff)
    else if s == "弓" then Some(Bow)
    else None
  }

  /** The five labels are distinct, so each weapon type is stored under its own label. */
  lemma WeaponTypeLabelsDistinct(w: WeaponType, v: WeaponType)
    ensures WeaponTypeLabel(w) in WeaponTypeLabels
    ensures ParseWeaponType(WeaponTypeLabel(w)) == Some(w)
    ensures WeaponTypeLabel(w) == WeaponTypeLabel(v) ==> w == v
  {
  }

  datatype SkillTarget = Single | All | Self

  function SkillTargetLabel(t: SkillTarget): string
  {
    match t
    case Single => "単体"
    case All => "全体"
    case Self => "自身"
  }

  const SkillTargetLabels: set<string> := {"単体", "全体", "自身"}

  datatype SkillType = Passive | Active | Instant | Aura | NormalAttack | Reaction

  function SkillTypeLabel(t: SkillType): string
  {
    match t
    case Passive => "パッシブ"
    case Active => "アクティブ"
    case Instant => "即時"
    case Aura => "オーラ"
    case NormalAttack => "通常攻撃"
    case Reaction => "リアクション"
  }

  const SkillTypeLabels: set<string> := {"パッシブ", "アクティブ", "即時", "オーラ", "通常攻撃", "リアクション"}

  function ParseSkillType(s: string): (r: Option<SkillType>)
    ensures r.Some? <==> s in SkillTypeLabels
    ensures r.Some? ==> SkillTypeLabel(r.value) == s
  {
    if s == "パッシブ" then Some(Passive)
    else if s == "アクティブ" then Some(Active)
    else if s == "即時" then Some(Instant)
    else if s == "オーラ" then Some(Aura)
    else if s == "通常攻撃" then Some(NormalAttack)
    else if s == "リアクション" then Some(Reaction)
    else None
  }

  datatype SkillEffectCategory = Buff | Debuff | Status | TerrainAction | SkillRelated | Damage | Other

  function SkillEffectCategoryLabel(c: SkillEffectCategory): string
  {
    match c
    case Buff => "バフ"
    case Debuff => "デバフ"
    case Status => "状態"
    case TerrainAction => "地形・行動"
    case SkillRelated => "スキル"
    case Damage => "ダメージ"
    case Other => "その他"
  }

  const SkillEffectCategoryLabels: set<string> := {"バフ", "デバフ", "状態", "地形・行動", "スキル", "ダメージ", "その他"}

  function ParseSkillEffectCategory(s: string): (r: Option<SkillEffectCategory>)
    ensures r.Some? <==> s in SkillEffectCategoryLabels
    ensures r.Some? ==> SkillEffectCategoryLabel(r.value) == s
  {
    if s == "バフ" then Some(Buff)
    else if s == "デバフ" then Some(Debuff)
    else if s == "状態" then Some(Status)
    else if s == "地形・行動" then Some(TerrainAction)
    else if s == "スキル" then Some(SkillRelated)
    else if s == "ダメージ" then Some(Damage)
    else if s == "その他" then Some(Other)
    else None
  }

  /** The label the skill-effect migration writes into effects without a category. */
  const DefaultSkillEffectCategory: SkillEffectCategory := Other

  datatype TerrainSuitability = Normal

  const TerrainSuitabilityLabels: set<string> := {"normal"}

  datatype EquipmentCategory = Weapon | Armor

  function EquipmentCategoryLabel(c: EquipmentCategory): string
  {
    match c
    case Weapon => "weapon"
    case Armor => "armor"
  }

  const EquipmentCategoryLabels: set<string> := {"weapon", "armor"}

  /** Equipment has its own weapon-type enumeration, in English, unrelated to `WeaponType`. */
  datatype EquipmentWeaponType = EqSword | EqSpear | EqAxe | EqBow | EqStaff

  function EquipmentWeaponTypeLabel(w: EquipmentWeaponType): string
  {
    match w
    case EqSword => "sword"
    case EqSpear => "spear"
    case EqAxe => "axe"
    case EqBow => "bow"
    case EqStaff => "staff"
  }

  const EquipmentWeaponTypeLabels: set<string> := {"sword", "spear", "axe", "bow", "staff"}

  datatype TarotAcquisitionMethod = SilentLand1 | SilentLand2 | SilentLand3 | LimitedEventDrop | NoWayToObtain

  function TarotAcquisitionMethodLabel(m: TarotAcquisitionMethod): string
  {
    match m
    case SilentLand1 => "静寂の地-1"
    case SilentLand2 => "静寂の地-2"
    case SilentLand3 => "静寂の地-3"
    case LimitedEventDrop => "期間限定イベントドロップ"
    case NoWayToObtain => "入手方法はありません"
  }

  const TarotAcquisitionMethodLabels: set<string> :=
    {"静寂の地-1", "静寂の地-2", "静寂の地-3", "期間限定イベントドロップ", "入手方法はありません"}

  /** Every character and skill enumeration's label lies in its label set, and the sets have the declared sizes. */
  lemma EnumerationSizes()
    ensures |WeaponTypeLabels| == 5 && |SkillTargetLabels| == 3 && |SkillTypeLabels| == 6
    ensures |SkillEffectCategoryLabels| == 7
    ensures forall t: SkillType :: SkillTypeLabel(t) in SkillTypeLabels
    ensures forall c: SkillEffectCategory :: SkillEffectCategoryLabel(c) in SkillEffectCategoryLabels
    ensures forall t: SkillTarget :: SkillTargetLabel(t) in SkillTargetLabels
  {
  }

  /** The same for the equipment and tarot enumerations. */
  lemma EquipmentTarotLabelSizes()
    ensures |EquipmentCategoryLabels| == 2 && |EquipmentWeaponTypeLabels| == 5 && |TarotAcquisitionMethodLabels| == 5
    ensures forall m: TarotAcquisitionMethod :: TarotAcquisitionMethodLabel(m) in TarotAcquisitionMethodLabels
  {
  }

  // ---------------------------------------------------------------------------
  // Schemas: TypeScript interfaces as data

  datatype Shape =
    | StrShape
    | NumShape
    | OneOf(labels: set<string>)
    | ListOf(elem: Shape)
    | ObjectOf(fields: map<string, Field>)

  /** A property declaration: `k: T`, `k?: T`, `k: T | null`, `k?: T | null`. */
  datatype Field = Field(shape: Shape, optional: bool, nullable: bool)

  type Schema = map<string, Field>

  function Req(sh: Shape): Field { Field(sh, false, false) }
  function Opt(sh: Shape): Field { Field(sh, true, false) }
  function OptNull(sh: Shape): Field { Field(sh, true, true) }

  /**
   * `v` is a value of the declared type. An object may carry only declared
   * properties; an optional property may be absent or `undefined`; a required
   * one must be present and defined.
   */
  predicate Fits(v: Value, sh: Shape)
  {
    match sh
    case StrShape => v.Str?
    case NumShape => v.Num?
    case OneOf(labels) => v.Str? && v.s in labels
    case ListOf(elem) => v.Arr? && forall i :: 0 <= i < |v.items| ==> Fits(v.items[i], elem)
    case ObjectOf(fields) =>
      && v.Obj?
      && (forall k :: k in v.fields ==>
            && k in fields
            && (v.fields[k] == Undefined ==> fields[k].optional)
            && (v.fields[k] == Null ==> fields[k].nullable)
            && (v.fields[k] != Undefined && v.fields[k] != Null ==> Fits(v.fields[k], fields[k].shape)))
      && (forall k :: k in fields && !fields[k].optional ==> k in v.fields && v.fields[k] != Undefined)
  }

  /** A record is an object of the interface `sc`. */
  predicate Conforms(r: Record, sc: Schema)
  {
    Fits(Obj(r), ObjectOf(sc))
  }

  /** A record with a property the interface does not declare does not conform to it. */
  lemma ExtraKeyBreaks(r: Record, sc: Schema, k: string)
    requires k in r && k !in sc
    ensures !Conforms(r, sc)
  {
  }

  /** A record whose defined property has the wrong type does not conform. */
  lemma WrongShapeBreaks(r: Record, sc: Schema, k: string)
    requires k in r && k in sc && r[k] != Undefined && r[k] != Null && !Fits(r[k], sc[k].shape)
    ensures !Conforms(r, sc)
  {
  }

  /** A Role's movement power is a number, so a string there breaks the interface. */
  lemma RoleMovementPowerIsNumber(r: Record)
    requires "movementPower" in r && r["movementPower"].Str?
    ensures !Conforms(r, RoleSchema)
  {
    assert "movementPower" in RoleSchema && RoleSchema["movementPower"].shape == NumShape;
    WrongShapeBreaks(r, RoleSchema, "movementPower");
  }

  /** A Faction declares no `icon`. */
  lemma FactionHasNoIcon(r: Record)
    requires "icon" in r
    ensures !Conforms(r, FactionSchema)
  {
    assert "icon" !in FactionSchema;
    ExtraKeyBreaks(r, FactionSchema, "icon");
  }

  /** TypeScript's `Omit<T, k>`. */
  function Omit(sc: Schema, k: string): Schema
  {
    sc - {k}
  }

  /** Omitting a property just added gives back the interface it was added to. */
  lemma OmitAdded(sc: Schema, k: string, fld: Field)
    requires k !in sc
    ensures Omit(sc[k := fld], k) == sc
  {
  }

  /** TypeScript's `Partial<T>`: every property becomes optional. */
  function Partial(sc: Schema): (p: Schema)
    ensures p.Keys == sc.Keys
  {
    map k | k in sc :: sc[k].(optional := true)
  }

  // The interfaces of shared/src/models.ts

  const SkillRangeSchema: Schema := map[
    "distanceFrom" := Opt(NumShape), "distanceTo" := Opt(NumShape),
    "heightDiffFrom" := Opt(NumShape), "heightDiffTo" := Opt(NumShape),
    "areaHeightDiffFrom" := Opt(NumShape), "areaHeightDiffTo" := Opt(NumShape),
    "image" := Opt(StrShape)]

  const SkillEffectCreateSchema: Schema := map[
    "name" := Req(StrShape), "description" := Req(StrShape),
    "category" := Req(OneOf(SkillEffectCategoryLabels))]
  const SkillEffectSchema: Schema := SkillEffectCreateSchema["id" := Req(StrShape)]
  const SkillEffectUpdateSchema: Schema := Partial(SkillEffectCreateSchema)

  const SkillCreateSchema: Schema := map[
    "name" := Req(StrShape), "icon" := Opt(StrShape), "cost" := Opt(NumShape), "ct" := Opt(NumShape),
    "description" := Opt(StrShape), "targets" := Req(ListOf(OneOf(SkillTargetLabels))),
    "skillType" := Opt(OneOf(SkillTypeLabels)), "range" := Opt(ObjectOf(SkillRangeSchema)),
    "effectIds" := Opt(ListOf(StrShape))]
  const SkillSchema: Schema := SkillCreateSchema["id" := Req(StrShape)]
  const SkillUpdateSchema: Schema := Partial(SkillCreateSchema)

  const PersonalitySkillCreateSchema: Schema := map[
    "name" := Req(StrShape), "icon" := Opt(StrShape), "effectIds" := Opt(ListOf(StrShape)),
    "star1Description" := Req(StrShape), "star2Description" := Req(StrShape),
    "star3Description" := Req(StrShape), "star4Description" := Req(StrShape),
    "star5Description" := Req(StrShape)]
  const PersonalitySkillSchema: Schema := PersonalitySkillCreateSchema["id" := Req(StrShape)]
  const PersonalitySkillUpdateSchema: Schema := Partial(PersonalitySkillCreateSchema)

  const ExSkillCreateSchema: Schema := map[
    "name" := Req(StrShape), "icon" := Opt(StrShape), "effectIds" := Opt(ListOf(StrShape)),
    "lv1Description" := Req(StrShape), "lv2Description" := Req(StrShape),
    "lv3Description" := Req(StrShape)]
  const ExSkillSchema: Schema := ExSkillCreateSchema["id" := Req(StrShape)]
  const ExSkillUpdateSchema: Schema := Partial(ExSkillCreateSchema)

  const RaritySchema: Schema := map[
    "id" := Req(StrShape), "name" := Req(StrShape), "image" := Opt(StrShape), "value" := Req(NumShape)]
  /** The create input also declares `icon`, which a stored Rarity does not. */
  const RarityCreateSchema: Schema := Omit(RaritySchema, "id")["icon" := Opt(StrShape)]
  const RarityUpdateSchema: Schema := Partial(RarityCreateSchema)

  const RoleSchema: Schema := map[
    "id" := Req(StrShape), "name" := Req(StrShape), "image" := Opt(StrShape),
    "movementPower" := Req(NumShape), "jumpHigh" := Req(NumShape), "jumpLow" := Req(NumShape),
    "terrainSuitability" := Req(OneOf(TerrainSuitabilityLabels))]
  const RoleCreateSchema: Schema := Omit(RoleSchema, "id")["icon" := Opt(StrShape)]
  const RoleUpdateSchema: Schema := Partial(RoleCreateSchema)

  const FactionSchema: Schema := map["id" := Req(StrShape), "name" := Req(StrShape), "image" := Opt(StrShape)]
  const FactionCreateSchema: Schema := Omit(FactionSchema, "id")["icon" := Opt(StrShape)]
  const FactionUpdateSchema: Schema := Partial(FactionCreateSchema)

  /** The six ranks of a character's skill tree. */
  const SkillTreeRanks: seq<string> := ["RK1", "RK3", "RK5", "RK7", "RK9", "RK11"]

  const SkillTreeNodeSchema: Schema := map["left" := Opt(StrShape), "right" := Opt(StrShape)]
  const SkillTreeSchema: Schema := map[
    "RK1" := Opt(ObjectOf(SkillTreeNodeSchema)), "RK3" := Opt(ObjectOf(SkillTreeNodeSchema)),
    "RK5" := Opt(ObjectOf(SkillTreeNodeSchema)), "RK7" := Opt(ObjectOf(SkillTreeNodeSchema)),
    "RK9" := Opt(ObjectOf(SkillTreeNodeSchema)), "RK11" := Opt(ObjectOf(SkillTreeNodeSchema))]

  const CharacterSchema: Schema := map[
    "id" := Req(StrShape), "name" := Req(StrShape),
    "rarityId" := OptNull(StrShape), "roleId" := OptNull(StrShape),
    "factionIds" := Req(ListOf(StrShape)),
    "weaponType" := OptNull(OneOf(WeaponTypeLabels)),
    "personalitySkillId" := OptNull(StrShape),
    "skillTree" := OptNull(ObjectOf(SkillTreeSchema)),
    "exSkillIds" := Opt(ListOf(StrShape)),
    "normalAppearance" := OptNull(StrShape), "pixelAvatar" := OptNull(StrShape)]
  /** `interface CharacterCreateInput extends Omit<Character, "id">`. */
  const CharacterCreateSchema: Schema := Omit(CharacterSchema, "id")
  const CharacterUpdateSchema: Schema := Partial(CharacterCreateSchema)

  const AdminUserCreateSchema: Schema := map["username" := Req(StrShape), "passwordHash" := Req(StrShape)]
  const AdminUserSchema: Schema := AdminUserCreateSchema["id" := Req(StrShape)]
  const AdminUserUpdateSchema: Schema := Partial(AdminUserCreateSchema)

  const EquipmentCreateSchema: Schema := map[
    "name" := Req(StrShape), "icon" := OptNull(StrShape), "rarityId" := OptNull(StrShape),
    "category" := OptNull(OneOf(EquipmentCategoryLabels)),
    "weaponType" := OptNull(OneOf(EquipmentWeaponTypeLabels)),
    "equipmentSkill" := OptNull(StrShape), "description" := OptNull(StrShape),
    "acquisitionMethod" := OptNull(StrShape)]
  const EquipmentSchema: Schema := EquipmentCreateSchema + map[
    "id" := Req(StrShape), "createdAt" := Req(StrShape), "updatedAt" := Req(StrShape)]
  const EquipmentUpdateSchema: Schema := Partial(EquipmentCreateSchema)

  const TarotCreateSchema: Schema := map[
    "name" := Req(StrShape), "rarityId" := Req(StrShape), "icon" := Opt(StrShape),
    "equipmentSkill" := Opt(StrShape), "additionalSkill" := Opt(StrShape), "description" := Opt(StrShape),
    "acquisitionMethods" := Req(ListOf(OneOf(TarotAcquisitionMethodLabels)))]
  const TarotSchema: Schema := TarotCreateSchema + map[
    "id" := Req(StrShape), "createdAt" := Req(StrShape), "updatedAt" := Req(StrShape)]
  const TarotUpdateSchema: Schema := Partial(TarotCreateSchema)

  // ---------------------------------------------------------------------------
  // What the declarations promise

  /** A partial input of any interface may leave every property out. */
  lemma EmptyInputIsPartial(sc: Schema)
    ensures Conforms(map[], Partial(sc))
  {
  }

  /**
   * Any selection of the properties of a create input is an update input:
   * `XUpdateInput extends Partial<XCreateInput>`.
   */
  lemma PartOfInputIsPartial(input: Record, keys: set<string>, sc: Schema)
    requires Conforms(input, sc)
    ensures Conforms(map k | k in input && k in keys :: input[k], Partial(sc))
  {
    var part := map k | k in input && k in keys :: input[k];
    assert forall k :: k in part ==> part[k] == input[k] && k in input;
  }

  /** A create input without an `id`, given a fresh string id, is a stored entity of the full interface. */
  lemma CreatedConforms(input: Record, id: string, sc: Schema)
    requires "id" in sc && sc["id"] == Req(StrShape)
    requires Conforms(input, Omit(sc, "id"))
    ensures Conforms(map["id" := Str(id)] + input, sc)
  {
    var r := map["id" := Str(id)] + input;
    assert "id" !in input;
    forall k | k in r
      ensures k in sc
      ensures r[k] == Undefined ==> sc[k].optional
      ensures r[k] == Null ==> sc[k].nullable
      ensures r[k] != Undefined && r[k] != Null ==> Fits(r[k], sc[k].shape)
    {
      if k != "id" {
        assert k in input && r[k] == input[k];
        assert Omit(sc, "id")[k] == sc[k];
      }
    }
  }

  /** What `create` stores for a JSON create input conforming to the interface without `id` is a well-typed entity. */
  lemma StoredConforms(input: Record, id: string, sc: Schema)
    requires "id" in sc && sc["id"] == Req(StrShape)
    requires Conforms(input, Omit(sc, "id"))
    requires IsJsonRecord(input)
    ensures Conforms(Persist(Store.Created(id, input)), sc)
  {
    CreatedConforms(input, id, sc);
    PersistKeepsJson(Store.Created(id, input));
  }

  /** The same, for an interface written as its create interface plus a string `id`. */
  lemma StoredConformsWithId(input: Record, id: string, create: Schema)
    requires "id" !in create
    requires Conforms(input, create)
    requires IsJsonRecord(input)
    ensures Conforms(Persist(Store.Created(id, input)), create["id" := Req(StrShape)])
  {
    OmitAdded(create, "id", Req(StrShape));
    StoredConforms(input, id, create["id" := Req(StrShape)]);
  }

  /** A create input of a SkillEffect is stored as a SkillEffect. */
  lemma SkillEffectStored(input: Record, id: string)
    requires Conforms(input, SkillEffectCreateSchema)
    requires IsJsonRecord(input)
    ensures Conforms(Persist(Store.Created(id, input)), SkillEffectSchema)
  {
    StoredConformsWithId(input, id, SkillEffectCreateSchema);
  }

  /** A create input of an AdminUser is stored as an AdminUser. */
  lemma AdminUserStored(input: Record, id: string)
    requires Conforms(input, AdminUserCreateSchema)
    requires IsJsonRecord(input)
    ensures Conforms(Persist(Store.Created(id, input)), AdminUserSchema)
  {
    StoredConformsWithId(input, id, AdminUserCreateSchema);
  }

  /** A create input of a PersonalitySkill is stored as a PersonalitySkill. */
  lemma PersonalitySkillStored(input: Record, id: string)
    requires Conforms(input, PersonalitySkillCreateSchema)
    requires IsJsonRecord(input)
    ensures Conforms(Persist(Store.Created(id, input)), PersonalitySkillSchema)
  {
    StoredConformsWithId(input, id, PersonalitySkillCreateSchema);
  }

  /** A create input of an ExSkill is stored as an ExSkill. */
  lemma ExSkillStored(input: Record, id: string)
    requires Conforms(input, ExSkillCreateSchema)
    requires IsJsonRecord(input)
    ensures Conforms(Persist(Store.Created(id, input)), ExSkillSchema)
  {
    StoredConformsWithId(input, id, ExSkillCreateSchema);
  }

  /**
   * The repository's shallow merge keeps a stored entity well typed when the
   * update input is well typed and sets no property to `undefined`.
   */
  lemma MergeConforms(stored: Record, patch: Record, id: string, sc: Schema)
    requires "id" in sc && sc["id"] == Req(StrShape)
    requires Conforms(stored, sc)
    requires Conforms(patch, Partial(Omit(sc, "id")))
    requires forall k :: k in patch ==> patch[k] != Undefined
    ensures Conforms(stored + patch + map["id" := Str(id)], sc)
  {
    var r := stored + patch + map["id" := Str(id)];
    forall k | k in r
      ensures k in sc
      ensures r[k] == Undefined ==> sc[k].optional
      ensures r[k] == Null ==> sc[k].nullable
      ensures r[k] != Undefined && r[k] != Null ==> Fits(r[k], sc[k].shape)
    {
      if k != "id" && k in patch {
        assert Partial(Omit(sc, "id"))[k].shape == sc[k].shape;
        assert Partial(Omit(sc, "id"))[k].nullable == sc[k].nullable;
      }
    }
  }

  /** Setting a required property to `undefined` through the merge breaks the stored entity. */
  lemma UndefinedPatchBreaksEntity(stored: Record, id: string, k: string, sc: Schema)
    requires k in sc && !sc[k].optional && k != "id"
    ensures !Conforms(stored + map[k := Undefined] + map["id" := Str(id)], sc)
    ensures !Conforms(Persist(stored + map[k := Undefined] + map["id" := Str(id)]), sc)
  {
    var r := stored + map[k := Undefined] + map["id" := Str(id)];
    assert k in r && r[k] == Undefined;
    assert k !in Persist(r);
  }
}
