/**
 * admin/src/routes/skills.ts. On create the range is filled field by field
 * and put into an object literal with defaults for cost, ct, description and
 * skill type; on update every property is a conditional spread, the icon and
 * range image are chosen in branches, and the range is always sent. The
 * update's range, as written, loses a stored range image that the request
 * neither replaces nor clears; `UpdateInput` is the corrected input that
 * carries it over, and `UpdateInputAsWritten` the one the code builds and
 * the handler `Update` merges.
 */
module Skills {
  import opened Base
  import opened Json
  import opened Text
  import opened Forms
  import Store
  import Models
  import Repository
  import Upload

  const RangeFields: set<string> :=
    {"distanceFrom", "distanceTo", "heightDiffFrom", "heightDiffTo", "areaHeightDiffFrom", "areaHeightDiffTo"}

  /** `v ? parseInt(v) : null`. */
  function ParsedOrNull(v: Value): (r: Value)
    ensures !Truthy(v) ==> r == Null
    ensures Truthy(v) ==> r == ParseIntValue(v)
  {
    if Truthy(v) then ParseIntValue(v) else Null
  }

  // ---------------------------------------------------------------------------
  // Create

  /** The range on create: `if (v !== '') range.k = v ? parseInt(v) : null` for each of `fields`. */
  function CreateRangeFields(f: Form, fields: set<string>): Record
  {
    map k | k in fields && FieldValue(f, k) != Str("") :: ParsedOrNull(FieldValue(f, k))
  }

  method SetOnCreate(range: Record, f: Form, k: string) returns (r: Record)
    ensures r == if FieldValue(f, k) != Str("") then range[k := ParsedOrNull(FieldValue(f, k))] else range
  {
    r := range;
    var v := FieldValue(f, k);
    if v != Str("") {
      r := r[k := if Truthy(v) then ParseIntValue(v) else Null];
    }
  }

  lemma CreateRangeStep(f: Form, fields: set<string>, k: string)
    ensures CreateRangeFields(f, fields + {k}) ==
      if FieldValue(f, k) != Str("") then CreateRangeFields(f, fields)[k := ParsedOrNull(FieldValue(f, k))]
      else CreateRangeFields(f, fields)
  {
  }

  /** The six assignments of the create handler's range. */
  method BuildCreateRange(f: Form) returns (range: Record)
    ensures range == CreateRangeFields(f, RangeFields)
  {
    ghost var sent: set<string> := {};
    range := map[];
    assert range == CreateRangeFields(f, sent);
    range := SetOnCreate(range, f, "distanceFrom");
    CreateRangeStep(f, sent, "distanceFrom");
    sent := sent + {"distanceFrom"};
    range := SetOnCreate(range, f, "distanceTo");
    CreateRangeStep(f, sent, "distanceTo");
    sent := sent + {"distanceTo"};
    range := SetOnCreate(range, f, "heightDiffFrom");
    CreateRangeStep(f, sent, "heightDiffFrom");
    sent := sent + {"heightDiffFrom"};
    range := SetOnCreate(range, f, "heightDiffTo");
    CreateRangeStep(f, sent, "heightDiffTo");
    sent := sent + {"heightDiffTo"};
    range := SetOnCreate(range, f, "areaHeightDiffFrom");
    CreateRangeStep(f, sent, "areaHeightDiffFrom");
    sent := sent + {"areaHeightDiffFrom"};
    range := SetOnCreate(range, f, "areaHeightDiffTo");
    CreateRangeStep(f, sent, "areaHeightDiffTo");
    sent := sent + {"areaHeightDiffTo"};
    SixFieldsAdded("distanceFrom", "distanceTo", "heightDiffFrom", "heightDiffTo", "areaHeightDiffFrom", "areaHeightDiffTo");
  }

  /** On create a range field sent empty is left out, a missing one is `null`, and any other is parsed. */
  lemma CreateRangeCases(f: Form, k: string)
    requires k in RangeFields
    ensures k in f && f[k] == One("") ==> k !in CreateRangeFields(f, RangeFields)
    ensures k !in f ==> CreateRangeFields(f, RangeFields)[k] == Null
    ensures k in f && f[k].One? && f[k].s != "" ==> CreateRangeFields(f, RangeFields)[k] == ParseInt(f[k].s)
  {
  }

  /** `x || 0`. */
  function OrZero(v: Value): (r: Value)
    ensures Truthy(v) ==> r == v
    ensures !Truthy(v) ==> r == Num(0)
  {
    if Truthy(v) then v else Num(0)
  }

  /** The range on create, with the uploaded range image added to the same object. */
  function CreateRange(f: Form, rangeFile: Option<UploadedFile>): Record
  {
    var range := CreateRangeFields(f, RangeFields);
    if HasFile(rangeFile) then range["image" := Str(Upload.PublicPath(rangeFile.value.filename))] else range
  }

  /** The create handler's object literal. */
  function CreateData(f: Form, rangeFile: Option<UploadedFile>): Record
  {
    var skillType := FieldValue(f, "skillType");
    map[
      "name" := FieldValue(f, "name"),
      "cost" := OrZero(ParseIntValue(FieldValue(f, "cost"))),
      "ct" := OrZero(ParseIntValue(FieldValue(f, "ct"))),
      "description" := OrEmpty(FieldValue(f, "description")),
      "targets" := ToList(FieldValue(f, "targets")),
      "skillType" := if Truthy(skillType) && skillType != Str("") then skillType else Str("アクティブ"),
      "effectIds" := ToList(FieldValue(f, "effectIds")),
      "range" := Obj(CreateRange(f, rangeFile))]
  }

  /** The create input: the object literal, plus the icon's public path when an icon was uploaded. */
  function CreateInput(f: Form, iconFile: Option<UploadedFile>, rangeFile: Option<UploadedFile>): Record
  {
    var data := CreateData(f, rangeFile);
    if HasFile(iconFile) then data["icon" := Str(Upload.PublicPath(iconFile.value.filename))] else data
  }

  /** The create input declares the literal's eight properties and, with an uploaded icon, `icon`; never a skill category. */
  lemma CreateInputKeys(f: Form, iconFile: Option<UploadedFile>, rangeFile: Option<UploadedFile>)
    ensures CreateInput(f, iconFile, rangeFile).Keys ==
      {"name", "cost", "ct", "description", "targets", "skillType", "effectIds", "range"} + (if HasFile(iconFile) then {"icon"} else {})
    ensures "skillCategory" !in CreateInput(f, iconFile, rangeFile)
  {
    DataKeys(f, rangeFile);
  }

  lemma DataKeys(f: Form, rangeFile: Option<UploadedFile>)
    ensures CreateData(f, rangeFile).Keys == {"name", "cost", "ct", "description", "targets", "skillType", "effectIds", "range"}
  {
  }

  method BuildCreateInput(f: Form, iconFile: Option<UploadedFile>, rangeFile: Option<UploadedFile>) returns (input: Record)
    ensures input == CreateInput(f, iconFile, rangeFile)
  {
    var range := BuildCreateRange(f);
    if rangeFile.Some? && rangeFile.value.filename != "" {
      range := range["image" := Str(Upload.PublicPath(rangeFile.value.filename))];
    }
    var skillType := FieldValue(f, "skillType");
    input := map[
      "name" := FieldValue(f, "name"),
      "cost" := OrZero(ParseIntValue(FieldValue(f, "cost"))),
      "ct" := OrZero(ParseIntValue(FieldValue(f, "ct"))),
      "description" := OrEmpty(FieldValue(f, "description")),
      "targets" := ToList(FieldValue(f, "targets")),
      "skillType" := if Truthy(skillType) && skillType != Str("") then skillType else Str("アクティブ"),
      "effectIds" := ToList(FieldValue(f, "effectIds")),
      "range" := Obj(range)];
    if iconFile.Some? && iconFile.value.filename != "" {
      input := input["icon" := Str(Upload.PublicPath(iconFile.value.filename))];
    }
  }

  /**
   * Cost and ct: a number written in decimal is read back, and a missing or
   * unparsable value becomes 0.
   */
  lemma CreateCost(f: Form, iconFile: Option<UploadedFile>, rangeFile: Option<UploadedFile>, k: string, n: nat)
    requires k == "cost" || k == "ct"
    ensures k in f && f[k] == One(Decimal(n)) ==> CreateInput(f, iconFile, rangeFile)[k] == Num(n)
    ensures k !in f ==> CreateInput(f, iconFile, rangeFile)[k] == Num(0)
    ensures k in f && f[k].One? && ParseInt(f[k].s) == NaN ==> CreateInput(f, iconFile, rangeFile)[k] == Num(0)
  {
    CreateNumberAt(f, iconFile, rangeFile, k);
    ParseDecimal(n);
  }

  lemma CreateNumberAt(f: Form, iconFile: Option<UploadedFile>, rangeFile: Option<UploadedFile>, k: string)
    requires k == "cost" || k == "ct"
    ensures CreateInput(f, iconFile, rangeFile)[k] == OrZero(ParseIntValue(FieldValue(f, k)))
  {
    DataNumberAt(f, rangeFile, k);
    assert k != "icon";
  }

  lemma DataNumberAt(f: Form, rangeFile: Option<UploadedFile>, k: string)
    requires k == "cost" || k == "ct"
    ensures k in CreateData(f, rangeFile) && CreateData(f, rangeFile)[k] == OrZero(ParseIntValue(FieldValue(f, k)))
  {
  }

  /** A missing or empty skill type becomes アクティブ, one of the declared skill types. */
  lemma CreateSkillTypeDefault(f: Form, iconFile: Option<UploadedFile>, rangeFile: Option<UploadedFile>)
    requires "skillType" !in f || f["skillType"] == One("")
    ensures CreateInput(f, iconFile, rangeFile)["skillType"] == Str("アクティブ")
    ensures "アクティブ" in Models.SkillTypeLabels
  {
    DataSkillType(f, rangeFile);
    assert "skillType" != "icon";
  }

  lemma DataSkillType(f: Form, rangeFile: Option<UploadedFile>)
    requires "skillType" !in f || f["skillType"] == One("")
    ensures "skillType" in CreateData(f, rangeFile) && CreateData(f, rangeFile)["skillType"] == Str("アクティブ")
  {
  }

  // ---------------------------------------------------------------------------
  // Update

  /** The range on update: `if (v !== undefined) range.k = v === '' ? null : (v ? parseInt(v) : null)`. */
  function UpdateRangeFields(f: Form, fields: set<string>): Record
  {
    map k | k in fields && k in f :: ParsedOrNull(FieldValue(f, k))
  }

  method SetOnUpdate(range: Record, f: Form, k: string) returns (r: Record)
    ensures r == if k in f then range[k := ParsedOrNull(FieldValue(f, k))] else range
  {
    r := range;
    if k in f {
      var v := FieldValue(f, k);
      r := r[k := if v == Str("") then Null else if Truthy(v) then ParseIntValue(v) else Null];
    }
  }

  lemma UpdateRangeStep(f: Form, fields: set<string>, k: string)
    ensures UpdateRangeFields(f, fields + {k}) ==
      if k in f then UpdateRangeFields(f, fields)[k := ParsedOrNull(FieldValue(f, k))] else UpdateRangeFields(f, fields)
  {
  }

  /** The six assignments of the update handler's range. */
  method BuildUpdateRange(f: Form) returns (range: Record)
    ensures range == UpdateRangeFields(f, RangeFields)
  {
    ghost var sent: set<string> := {};
    range := map[];
    assert range == UpdateRangeFields(f, sent);
    range := SetOnUpdate(range, f, "distanceFrom");
    UpdateRangeStep(f, sent, "distanceFrom");
    sent := sent + {"distanceFrom"};
    range := SetOnUpdate(range, f, "distanceTo");
    UpdateRangeStep(f, sent, "distanceTo");
    sent := sent + {"distanceTo"};
    range := SetOnUpdate(range, f, "heightDiffFrom");
    UpdateRangeStep(f, sent, "heightDiffFrom");
    sent := sent + {"heightDiffFrom"};
    range := SetOnUpdate(range, f, "heightDiffTo");
    UpdateRangeStep(f, sent, "heightDiffTo");
    sent := sent + {"heightDiffTo"};
    range := SetOnUpdate(range, f, "areaHeightDiffFrom");
    UpdateRangeStep(f, sent, "areaHeightDiffFrom");
    sent := sent + {"areaHeightDiffFrom"};
    range := SetOnUpdate(range, f, "areaHeightDiffTo");
    UpdateRangeStep(f, sent, "areaHeightDiffTo");
    sent := sent + {"areaHeightDiffTo"};
    SixFieldsAdded("distanceFrom", "distanceTo", "heightDiffFrom", "heightDiffTo", "areaHeightDiffFrom", "areaHeightDiffTo");
  }

  /** The icon or range image of an update: `null` on the clear flag, the upload's path, otherwise left out. */
  function PictureChoice(f: Form, file: Option<UploadedFile>, clearFlag: string): Choice
  {
    if FieldIs(f, clearFlag, "true") then Put(Null)
    else if file.Some? then Put(Str(Upload.PublicPath(file.value.filename)))
    else Leave
  }

  /** `cost` and `ct`: `''` is `null`, a sent value is parsed, a missing one is left out. */
  function NumberUpdate(v: Value): Option<Value>
  {
    if v == Str("") then Some(Null) else if Truthy(v) then Some(ParseIntValue(v)) else None
  }

  function Present(f: Form, k: string, v: Value): Option<Value>
  {
    if k in f then Some(v) else None
  }

  const UpdateKeys: set<string> :=
    {"name", "icon", "cost", "ct", "description", "targets", "skillType", "effectIds", "range"}

  /** Property `k` of `updateData`, `None` when its conditional spread adds nothing. */
  function UpdateEntry(f: Form, iconFile: Option<UploadedFile>, range: Record, k: string): Option<Value>
  {
    var v := FieldValue(f, k);
    if k == "name" then (if Truthy(v) then Some(v) else None)
    else if k == "icon" then (var c := PictureChoice(f, iconFile, "iconClear"); if c.Put? then Some(c.v) else None)
    else if k == "cost" || k == "ct" then NumberUpdate(v)
    else if k == "description" then Present(f, k, v)
    else if k == "targets" || k == "effectIds" then Present(f, k, Wrap(v))
    else if k == "skillType" then Present(f, k, if v == Str("") then Null else v)
    else if k == "range" then Some(Obj(range))
    else None
  }

  /** `updateData` for a given range object. */
  function UpdateData(f: Form, iconFile: Option<UploadedFile>, range: Record): Record
  {
    map k | k in UpdateKeys && UpdateEntry(f, iconFile, range, k).Some? :: UpdateEntry(f, iconFile, range, k).value
  }

  /** What the merge of `updateData` holds under a key other than `id`. */
  lemma MergedAt(stored: Record, f: Form, iconFile: Option<UploadedFile>, range: Record, id: string, k: string)
    requires k != "id"
    ensures Get(Store.Merge(stored, UpdateData(f, iconFile, range), id), k) ==
      if k in UpdateKeys && UpdateEntry(f, iconFile, range, k).Some? then UpdateEntry(f, iconFile, range, k).value
      else Get(stored, k)
  {
  }

  /** The range as the code builds it: `range.image` only when a range image was uploaded or cleared. */
  function RangeAsWritten(f: Form, rangeFile: Option<UploadedFile>): Record
  {
    var range := UpdateRangeFields(f, RangeFields);
    var image := PictureChoice(f, rangeFile, "rangeImageClear");
    if image.Put? then range["image" := image.v] else range
  }

  function UpdateInputAsWritten(f: Form, iconFile: Option<UploadedFile>, rangeFile: Option<UploadedFile>): Record
  {
    UpdateData(f, iconFile, RangeAsWritten(f, rangeFile))
  }

  /** `existing.range.image`, when the stored range is an object. */
  function StoredRangeImage(existing: Record): Value
  {
    var range := Get(existing, "range");
    if range.Obj? then Get(range.fields, "image") else Undefined
  }

  /** The corrected range: without an upload or the clear flag, the stored range image is carried over. */
  function Range(f: Form, rangeFile: Option<UploadedFile>, existing: Record): (range: Record)
    ensures range - {"image"} == RangeAsWritten(f, rangeFile) - {"image"}
  {
    var range := RangeAsWritten(f, rangeFile);
    if PictureChoice(f, rangeFile, "rangeImageClear").Leave? && StoredRangeImage(existing) != Undefined then
      range["image" := StoredRangeImage(existing)]
    else range
  }

  function UpdateInput(f: Form, iconFile: Option<UploadedFile>, rangeFile: Option<UploadedFile>, existing: Record): Record
  {
    UpdateData(f, iconFile, Range(f, rangeFile, existing))
  }

  /** The branches on the range image followed by `if (rangeImage !== undefined) range.image = rangeImage`, as written. */
  method BuildUpdateInput(f: Form, iconFile: Option<UploadedFile>, rangeFile: Option<UploadedFile>) returns (input: Record)
    ensures input == UpdateInputAsWritten(f, iconFile, rangeFile)
  {
    var range := BuildUpdateRange(f);
    var rangeImage := Undefined;
    if FieldValue(f, "rangeImageClear") == Str("true") {
      rangeImage := Null;
    } else if rangeFile.Some? {
      rangeImage := Str(Upload.PublicPath(rangeFile.value.filename));
    }
    if rangeImage != Undefined {
      range := range["image" := rangeImage];
    }
    input := UpdateData(f, iconFile, range);
  }

  lemma RangeEntry(f: Form, iconFile: Option<UploadedFile>, range: Record)
    ensures UpdateEntry(f, iconFile, range, "range") == Some(Obj(range))
  {
  }

  lemma RangeOmits(f: Form, rangeFile: Option<UploadedFile>, k: string)
    requires k in RangeFields && k !in f
    ensures k !in RangeAsWritten(f, rangeFile)
  {
  }

  /** The image of the corrected range: `null` on the clear flag, the upload's path, otherwise the stored one. */
  lemma RangeImage(f: Form, rangeFile: Option<UploadedFile>, stored: Record)
    ensures !FieldIs(f, "rangeImageClear", "true") && rangeFile.None? ==> Get(Range(f, rangeFile, stored), "image") == StoredRangeImage(stored)
    ensures FieldIs(f, "rangeImageClear", "true") ==> Get(Range(f, rangeFile, stored), "image") == Null
    ensures !FieldIs(f, "rangeImageClear", "true") && rangeFile.Some? ==>
      Get(Range(f, rangeFile, stored), "image") == Str(Upload.PublicPath(rangeFile.value.filename))
  {
    assert "image" !in UpdateRangeFields(f, RangeFields);
  }

  lemma NumberEntry(f: Form, iconFile: Option<UploadedFile>, range: Record, k: string)
    requires k == "cost" || k == "ct"
    ensures k in UpdateKeys && UpdateEntry(f, iconFile, range, k) == NumberUpdate(FieldValue(f, k))
  {
  }

  lemma AsWrittenNoImage(f: Form)
    requires !FieldIs(f, "rangeImageClear", "true")
    ensures "image" !in RangeAsWritten(f, None)
  {
  }

  /** The update always sends a range, so range fields the request leaves out are dropped from the stored range. */
  lemma RangeReplacedWholesale(stored: Record, f: Form, iconFile: Option<UploadedFile>, rangeFile: Option<UploadedFile>, id: string, k: string)
    requires k in RangeFields && k !in f
    ensures Get(Store.Merge(stored, UpdateInputAsWritten(f, iconFile, rangeFile), id), "range") == Obj(RangeAsWritten(f, rangeFile))
    ensures k !in RangeAsWritten(f, rangeFile)
  {
    MergedAt(stored, f, iconFile, RangeAsWritten(f, rangeFile), id, "range");
    RangeEntry(f, iconFile, RangeAsWritten(f, rangeFile));
    RangeOmits(f, rangeFile, k);
  }

  /** As written, an edit that neither uploads nor clears the range image drops the stored one. */
  lemma RangeImageLostAsWritten(stored: Record, f: Form, iconFile: Option<UploadedFile>, id: string)
    requires !FieldIs(f, "rangeImageClear", "true") && StoredRangeImage(stored) != Undefined
    ensures StoredRangeImage(Store.Merge(stored, UpdateInputAsWritten(f, iconFile, None), id)) == Undefined
  {
    MergedAt(stored, f, iconFile, RangeAsWritten(f, None), id, "range");
    RangeEntry(f, iconFile, RangeAsWritten(f, None));
    AsWrittenNoImage(f);
  }

  /** Corrected, the same edit keeps it, and the range image changes only on upload or clear. */
  lemma RangeImageKept(stored: Record, f: Form, iconFile: Option<UploadedFile>, rangeFile: Option<UploadedFile>, id: string)
    ensures var m := Store.Merge(stored, UpdateInput(f, iconFile, rangeFile, stored), id);
      && (!FieldIs(f, "rangeImageClear", "true") && rangeFile.None? ==> StoredRangeImage(m) == StoredRangeImage(stored))
      && (FieldIs(f, "rangeImageClear", "true") ==> StoredRangeImage(m) == Null)
      && (!FieldIs(f, "rangeImageClear", "true") && rangeFile.Some? ==>
            StoredRangeImage(m) == Str(Upload.PublicPath(rangeFile.value.filename)))
  {
    MergedAt(stored, f, iconFile, Range(f, rangeFile, stored), id, "range");
    RangeEntry(f, iconFile, Range(f, rangeFile, stored));
    RangeImage(f, rangeFile, stored);
  }

  /** The icon is `null` on the clear flag, the upload's path on an upload, and otherwise the stored one. */
  lemma UpdateIcon(stored: Record, f: Form, iconFile: Option<UploadedFile>, rangeFile: Option<UploadedFile>, id: string)
    ensures var m := Store.Merge(stored, UpdateInputAsWritten(f, iconFile, rangeFile), id);
      && (FieldIs(f, "iconClear", "true") ==> Get(m, "icon") == Null)
      && (!FieldIs(f, "iconClear", "true") && iconFile.Some? ==> Get(m, "icon") == Str(Upload.PublicPath(iconFile.value.filename)))
      && (!FieldIs(f, "iconClear", "true") && iconFile.None? ==> Get(m, "icon") == Get(stored, "icon"))
  {
    MergedAt(stored, f, iconFile, RangeAsWritten(f, rangeFile), id, "icon");
  }

  /** Cost and ct: `''` clears to `null`, a decimal number is read back, a missing value keeps the stored one. */
  lemma UpdateCost(stored: Record, f: Form, iconFile: Option<UploadedFile>, rangeFile: Option<UploadedFile>, id: string, k: string, n: nat)
    requires k == "cost" || k == "ct"
    ensures var m := Store.Merge(stored, UpdateInputAsWritten(f, iconFile, rangeFile), id);
      && (k in f && f[k] == One("") ==> Get(m, k) == Null)
      && (k in f && f[k] == One(Decimal(n)) ==> Get(m, k) == Num(n))
      && (k !in f ==> Get(m, k) == Get(stored, k))
  {
    MergedNumber(stored, f, iconFile, RangeAsWritten(f, rangeFile), id, k);
    NumberUpdateCases(f, k, n);
  }

  lemma MergedNumber(stored: Record, f: Form, iconFile: Option<UploadedFile>, range: Record, id: string, k: string)
    requires k == "cost" || k == "ct"
    ensures Get(Store.Merge(stored, UpdateData(f, iconFile, range), id), k) ==
      if NumberUpdate(FieldValue(f, k)).Some? then NumberUpdate(FieldValue(f, k)).value else Get(stored, k)
  {
    MergedAt(stored, f, iconFile, range, id, k);
    NumberEntry(f, iconFile, range, k);
  }

  lemma NumberUpdateCases(f: Form, k: string, n: nat)
    ensures k in f && f[k] == One("") ==> NumberUpdate(FieldValue(f, k)) == Some(Null)
    ensures k in f && f[k] == One(Decimal(n)) ==> NumberUpdate(FieldValue(f, k)) == Some(Num(n))
    ensures k !in f ==> NumberUpdate(FieldValue(f, k)) == None
  {
    if k in f && f[k] == One(Decimal(n)) {
      NumberUpdateDecimal(n);
    }
  }

  lemma NumberUpdateDecimal(n: nat)
    ensures NumberUpdate(Str(Decimal(n))) == Some(Num(n))
  {
    ParseDecimal(n);
    assert |Decimal(n)| >= 1;
  }

  /** Renaming needs a non-empty name: an empty or missing one keeps the stored name. */
  lemma UpdateName(stored: Record, f: Form, iconFile: Option<UploadedFile>, rangeFile: Option<UploadedFile>, id: string)
    requires "name" !in f || f["name"] == One("")
    ensures Get(Store.Merge(stored, UpdateInputAsWritten(f, iconFile, rangeFile), id), "name") == Get(stored, "name")
  {
    MergedAt(stored, f, iconFile, RangeAsWritten(f, rangeFile), id, "name");
  }

  /**
   * Removing a replaced or cleared old file calls `replace` on the stored
   * icon or range image, which throws when that is a truthy non-string.
   */
  predicate OldFileThrows(existing: Record, f: Form, iconFile: Option<UploadedFile>, rangeFile: Option<UploadedFile>)
  {
    var icon := Get(existing, "icon");
    var image := StoredRangeImage(existing);
    || (PictureChoice(f, iconFile, "iconClear").Put? && Truthy(icon) && !icon.Str?)
    || (PictureChoice(f, rangeFile, "rangeImageClear").Put? && Truthy(image) && !image.Str?)
  }

  method Create(repo: Repository.JsonFile, id: string, f: Form, iconFile: Option<UploadedFile>, rangeFile: Option<UploadedFile>)
    returns (resp: Response)
    requires repo.Valid()
    modifies repo
    ensures repo.Valid()
    ensures repo.contents == Store.AfterCreate(old(repo.contents), id, CreateInput(f, iconFile, rangeFile))
    ensures resp == Redirect("/skills")
  {
    var input := BuildCreateInput(f, iconFile, rangeFile);
    var _ := repo.Create(id, input);
    resp := Redirect("/skills");
  }

  /**
   * POST `/:id`: 400 without an id, 404 before anything else for an unknown
   * skill, 500 when removing an old file throws; otherwise the input as the
   * code builds it is merged, losing a stored range image the request neither
   * replaces nor clears.
   */
  method Update(repo: Repository.JsonFile, id: string, f: Form, iconFile: Option<UploadedFile>, rangeFile: Option<UploadedFile>)
    returns (resp: Response)
    requires repo.Valid()
    modifies repo
    ensures repo.Valid()
    ensures var existing := Store.FindById(old(repo.contents), id);
      && (id == "" ==> resp == BadRequest && repo.contents == old(repo.contents))
      && (id != "" && existing.None? ==> resp == NotFound && repo.contents == old(repo.contents))
      && (id != "" && existing.Some? && OldFileThrows(existing.value, f, iconFile, rangeFile) ==>
            resp == ServerError && repo.contents == old(repo.contents))
      && (id != "" && existing.Some? && !OldFileThrows(existing.value, f, iconFile, rangeFile) ==>
            && resp == Redirect("/skills")
            && repo.contents == Store.AfterUpdate(old(repo.contents), id, UpdateInputAsWritten(f, iconFile, rangeFile)))
  {
    if id == "" {
      return BadRequest;
    }
    var existing := repo.FindById(id);
    assert existing == Store.FindById(repo.contents, id);
    if existing.None? {
      return NotFound;
    }
    if OldFileThrows(existing.value, f, iconFile, rangeFile) {
      return ServerError;
    }
    var input := BuildUpdateInput(f, iconFile, rangeFile);
    var _ := repo.Update(id, input);
    resp := Redirect("/skills");
  }

  /** POST `/:id/delete` and DELETE `/:id`: 400 without an id, 404 for an unknown skill, 500 when removing its files throws. */
  method Delete(repo: Repository.JsonFile, id: string) returns (resp: Response)
    requires repo.Valid()
    modifies repo
    ensures repo.Valid()
    ensures var existing := Store.FindById(old(repo.contents), id);
      && (id == "" ==> resp == BadRequest && repo.contents == old(repo.contents))
      && (id != "" && existing.None? ==> resp == NotFound && repo.contents == old(repo.contents))
      && (id != "" && existing.Some? ==>
            var icon := Get(existing.value, "icon");
            var image := StoredRangeImage(existing.value);
            if (Truthy(icon) && !icon.Str?) || (Truthy(image) && !image.Str?) then
              resp == ServerError && repo.contents == old(repo.contents)
            else
              resp == Redirect("/skills") && repo.contents == Store.AfterDelete(old(repo.contents), id))
  {
    if id == "" {
      return BadRequest;
    }
    var skill := repo.FindById(id);
    assert skill == Store.FindById(repo.contents, id);
    if skill.None? {
      return NotFound;
    }
    var icon := Get(skill.value, "icon");
    var image := StoredRangeImage(skill.value);
    if (Truthy(icon) && !icon.Str?) || (Truthy(image) && !image.Str?) {
      return ServerError;
    }
    var _ := repo.Delete(id);
    resp := Redirect("/skills");
  }
}
