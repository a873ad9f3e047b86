/**
 * admin/src/routes/equipment.ts. The input is built by successive
 * conditional assignments: `name` always, each optional field only when
 * sent (`''` becomes `null`, anything else is copied), the acquisition
 * methods joined into one string, and an icon on every request. The update's
 * icon depends on the stored equipment. The equipment repository is taken to
 * follow the same whole-file pattern as the others.
 */
module Equipment {
  import opened Base
  import opened Json
  import opened Text
  import opened Forms
  import Store
  import Repository
  import Upload

  const OptionalFields: set<string> := {"rarityId", "category", "weaponType", "equipmentSkill", "description"}

  /** `v === '' ? null : v`. */
  function EmptyToNull(v: Value): (r: Value)
    ensures v == Str("") ==> r == Null
    ensures v != Str("") ==> r == v
  {
    if v == Str("") then Null else v
  }

  /**
   * `name`, then `if (k !== undefined) input.k = k === '' ? null : k` for
   * each of `fields`.
   */
  function FieldsInput(f: Form, fields: set<string>): (input: Record)
    requires "name" !in fields
    ensures input.Keys == {"name"} + (set k | k in fields && k in f)
    ensures input["name"] == FieldValue(f, "name")
    ensures forall k :: k in fields && k in f ==> input[k] == EmptyToNull(FieldValue(f, k))
  {
    map k | k in {"name"} + fields && (k == "name" || k in f) ::
      if k == "name" then FieldValue(f, k) else EmptyToNull(FieldValue(f, k))
  }

  method SetEmptyToNull(input: Record, f: Form, k: string) returns (r: Record)
    ensures r == if k in f then input[k := EmptyToNull(FieldValue(f, k))] else input
  {
    r := input;
    if k in f {
      var v := FieldValue(f, k);
      r := r[k := if v == Str("") then Null else v];
    }
  }

  lemma FieldsInputStep(f: Form, fields: set<string>, k: string)
    requires "name" !in fields && k != "name"
    ensures FieldsInput(f, fields + {k}) ==
      if k in f then FieldsInput(f, fields)[k := EmptyToNull(FieldValue(f, k))] else FieldsInput(f, fields)
  {
  }

  function Texts(xs: seq<Value>): seq<string>
  {
    seq(|xs|, i requires 0 <= i < |xs| => if xs[i].Str? then xs[i].s else "")
  }

  /**
   * The stored acquisition method of a sent field: a non-empty selection
   * joined with `, `, `null` for an empty selection or `''`, a single string as it is.
   */
  function AcquisitionMethod(v: Value): Value
  {
    if v.Arr? then (if |v.items| > 0 then Str(Join(Texts(v.items), ", ")) else Null)
    else if v == Str("") then Null
    else v
  }

  /** What a sent acquisition-method field becomes, case by case. */
  lemma AcquisitionMethodCases(f: Form)
    requires "acquisitionMethod" in f
    ensures f["acquisitionMethod"] == Many([]) ==> AcquisitionMethod(FieldValue(f, "acquisitionMethod")) == Null
    ensures f["acquisitionMethod"].Many? && |f["acquisitionMethod"].items| > 0 ==>
      AcquisitionMethod(FieldValue(f, "acquisitionMethod")) == Str(Join(f["acquisitionMethod"].items, ", "))
    ensures f["acquisitionMethod"] == One("") ==> AcquisitionMethod(FieldValue(f, "acquisitionMethod")) == Null
    ensures f["acquisitionMethod"].One? && f["acquisitionMethod"].s != "" ==>
      AcquisitionMethod(FieldValue(f, "acquisitionMethod")) == Str(f["acquisitionMethod"].s)
  {
    if f["acquisitionMethod"].Many? {
      var xs := f["acquisitionMethod"].items;
      assert Texts(Strs(xs)) == xs;
    }
  }

  /** The input without its icon, shared by create and update. */
  function Input(f: Form): (input: Record)
    ensures input.Keys == {"name"} + (set k | k in OptionalFields + {"acquisitionMethod"} && k in f)
  {
    var base := FieldsInput(f, OptionalFields);
    if "acquisitionMethod" in f then base["acquisitionMethod" := AcquisitionMethod(FieldValue(f, "acquisitionMethod"))]
    else base
  }

  /** The five conditional assignments of the optional fields. */
  method BuildFields(f: Form) returns (input: Record)
    ensures input == FieldsInput(f, OptionalFields)
  {
    ghost var sent: set<string> := {};
    input := map["name" := FieldValue(f, "name")];
    assert input == FieldsInput(f, sent);
    input := SetEmptyToNull(input, f, "rarityId");
    FieldsInputStep(f, sent, "rarityId");
    sent := sent + {"rarityId"};
    input := SetEmptyToNull(input, f, "category");
    FieldsInputStep(f, sent, "category");
    sent := sent + {"category"};
    input := SetEmptyToNull(input, f, "weaponType");
    FieldsInputStep(f, sent, "weaponType");
    sent := sent + {"weaponType"};
    input := SetEmptyToNull(input, f, "equipmentSkill");
    FieldsInputStep(f, sent, "equipmentSkill");
    sent := sent + {"equipmentSkill"};
    input := SetEmptyToNull(input, f, "description");
    FieldsInputStep(f, sent, "description");
    sent := sent + {"description"};
    FiveFieldsAdded("rarityId", "category", "weaponType", "equipmentSkill", "description");
  }

  method BuildInput(f: Form) returns (input: Record)
    ensures input == Input(f)
  {
    input := BuildFields(f);
    if "acquisitionMethod" in f {
      var m := FieldValue(f, "acquisitionMethod");
      if m.Arr? {
        input := input["acquisitionMethod" := if |m.items| > 0 then Str(Join(Texts(m.items), ", ")) else Null];
      } else if m == Str("") {
        input := input["acquisitionMethod" := Null];
      } else {
        input := input["acquisitionMethod" := m];
      }
    }
  }

  /**
   * Merged into the stored equipment, an optional field left out keeps its
   * value, one sent empty is cleared to `null`, and any other is stored as sent;
   * the name is always overwritten.
   */
  lemma OptionalFieldMerge(stored: Record, f: Form, id: string, k: string)
    requires k in OptionalFields
    ensures k !in f ==> Get(Store.Merge(stored, Input(f), id), k) == Get(stored, k)
    ensures k in f && f[k] == One("") ==> Store.Merge(stored, Input(f), id)[k] == Null
    ensures k in f && f[k].One? && f[k].s != "" ==> Store.Merge(stored, Input(f), id)[k] == Str(f[k].s)
    ensures Store.Merge(stored, Input(f), id)["name"] == FieldValue(f, "name")
  {
    InputAt(f, k);
    Store.MergeAt(stored, Input(f), id, "name");
    if k in f {
      Store.MergeAt(stored, Input(f), id, k);
    } else {
      Store.MergeKeeps(stored, Input(f), id, k);
    }
  }

  /** Where an optional field and the name sit in the input. */
  lemma InputAt(f: Form, k: string)
    requires k in OptionalFields
    ensures k in Input(f) <==> k in f
    ensures k in f ==> Input(f)[k] == EmptyToNull(FieldValue(f, k))
    ensures "name" in Input(f) && Input(f)["name"] == FieldValue(f, "name")
  {
    assert k != "acquisitionMethod" && k != "name";
  }

  /** The create input: the uploaded file's public path as icon, or `null` without a file. */
  function CreateInput(f: Form, file: Option<UploadedFile>): (input: Record)
    ensures "icon" in input && input["icon"] == if file.Some? then Str(Upload.PublicPath(file.value.filename)) else Null
    ensures input - {"icon"} == Input(f) - {"icon"}
  {
    Input(f)["icon" := if file.Some? then Str(Upload.PublicPath(file.value.filename)) else Null]
  }

  method BuildCreateInput(f: Form, file: Option<UploadedFile>) returns (input: Record)
    ensures input == CreateInput(f, file)
  {
    input := BuildInput(f);
    if file.Some? {
      input := input["icon" := Str(Upload.PublicPath(file.value.filename))];
    } else {
      input := input["icon" := Null];
    }
  }

  /** `existing?.icon` for the equipment `findById` gave. */
  function StoredIcon(existing: Option<Record>): Value
  {
    if existing.Some? then Get(existing.value, "icon") else Undefined
  }

  /**
   * The update's icon: `null` on the clear flag, the upload's path, the stored
   * icon when it is non-blank, else `null`. Every branch calls `replace` or
   * `trim` on a truthy stored icon, which throws when it is not a string.
   */
  function IconChoice(f: Form, file: Option<UploadedFile>, existing: Option<Record>): Choice
  {
    var current := StoredIcon(existing);
    if Truthy(current) && !current.Str? then Throw
    else if FieldIs(f, "iconClear", "true") then Put(Null)
    else if file.Some? then Put(Str(Upload.PublicPath(file.value.filename)))
    else if Truthy(current) && Trim(current.s) != "" then Put(current)
    else Put(Null)
  }

  function UpdateInput(f: Form, file: Option<UploadedFile>, existing: Option<Record>): Option<Record>
  {
    Apply(Input(f), "icon", IconChoice(f, file, existing))
  }

  method BuildUpdateInput(f: Form, file: Option<UploadedFile>, existing: Option<Record>) returns (input: Option<Record>)
    ensures input == UpdateInput(f, file, existing)
  {
    var r := BuildInput(f);
    var c := ChooseIcon(f, file, existing);
    if c.Throw? {
      return None;
    }
    input := Some(r["icon" := c.v]);
  }

  /** The icon ladder of the update handler; `Throw` where `replace` or `trim` meets a stored icon that is not a string. */
  method ChooseIcon(f: Form, file: Option<UploadedFile>, existing: Option<Record>) returns (c: Choice)
    ensures c == IconChoice(f, file, existing)
  {
    var current := if existing.Some? then Get(existing.value, "icon") else Undefined;
    if FieldValue(f, "iconClear") == Str("true") {
      c := Put(Null);
      if Truthy(current) && !current.Str? {
        return Throw;
      }
    } else if file.Some? {
      c := Put(Str(Upload.PublicPath(file.value.filename)));
      if Truthy(current) && !current.Str? {
        return Throw;
      }
    } else {
      if Truthy(current) && !current.Str? {
        return Throw;
      }
      if Truthy(current) && Trim(current.s) != "" {
        c := Put(current);
      } else {
        c := Put(Null);
      }
    }
  }

  /**
   * Without a clear flag or an upload, the stored icon survives exactly when
   * it holds a non-white-space character; a blank one is cleared to `null`.
   */
  lemma UpdateKeepsIcon(stored: Record, f: Form, id: string, s: string)
    requires !FieldIs(f, "iconClear", "true")
    requires Get(stored, "icon") == Str(s)
    ensures UpdateInput(f, None, Some(stored)).Some?
    ensures !IsBlank(s) ==> Store.Merge(stored, UpdateInput(f, None, Some(stored)).value, id)["icon"] == Str(s)
    ensures IsBlank(s) ==> Store.Merge(stored, UpdateInput(f, None, Some(stored)).value, id)["icon"] == Null
  {
    KeptIconChoice(f, stored, s);
    Store.MergeAt(stored, Input(f)["icon" := if IsBlank(s) then Null else Str(s)], id, "icon");
  }

  /** The icon ladder without a clear flag or an upload, on a stored string icon. */
  lemma KeptIconChoice(f: Form, stored: Record, s: string)
    requires !FieldIs(f, "iconClear", "true")
    requires Get(stored, "icon") == Str(s)
    ensures IconChoice(f, None, Some(stored)) == Put(if IsBlank(s) then Null else Str(s))
  {
    TrimEmptyIffBlank(s);
  }

  /** Every update input carries an icon, so the merge never keeps the stored one implicitly. */
  lemma UpdateSetsIcon(f: Form, file: Option<UploadedFile>, existing: Option<Record>)
    ensures UpdateInput(f, file, existing).Some? ==> "icon" in UpdateInput(f, file, existing).value
    ensures UpdateInput(f, file, existing).None? <==> Truthy(StoredIcon(existing)) && !StoredIcon(existing).Str?
  {
  }

  method Create(repo: Repository.JsonFile, id: string, f: Form, file: Option<UploadedFile>) returns (resp: Response)
    requires repo.Valid()
    modifies repo
    ensures repo.Valid()
    ensures repo.contents == Store.AfterCreate(old(repo.contents), id, CreateInput(f, file))
    ensures resp == Redirect("/equipment")
  {
    var input := BuildCreateInput(f, file);
    var _ := repo.Create(id, input);
    resp := Redirect("/equipment");
  }

  /** PUT `/:id`: 400 without an id, 500 when the icon ladder throws, 404 when not found. */
  method Update(repo: Repository.JsonFile, id: string, f: Form, file: Option<UploadedFile>) returns (resp: Response)
    requires repo.Valid()
    modifies repo
    ensures repo.Valid()
    ensures var input := UpdateInput(f, file, Store.FindById(old(repo.contents), id));
      && (id == "" ==> resp == BadRequest && repo.contents == old(repo.contents))
      && (id != "" && input.None? ==> resp == ServerError && repo.contents == old(repo.contents))
      && (id != "" && input.Some? ==>
            && repo.contents == Store.AfterUpdate(old(repo.contents), id, input.value)
            && resp == if Store.FindById(old(repo.contents), id).Some? then Redirect("/equipment") else NotFound)
  {
    if id == "" {
      return BadRequest;
    }
    var existing := repo.FindById(id);
    assert existing == Store.FindById(repo.contents, id);
    var input := BuildUpdateInput(f, file, existing);
    if input.None? {
      return ServerError;
    }
    var updated := repo.Update(id, input.value);
    if updated.None? {
      return NotFound;
    }
    resp := Redirect("/equipment");
  }

  /** DELETE `/:id`: 400 without an id, 500 when the stored icon is not a string, 404 when nothing was deleted. */
  method Delete(repo: Repository.JsonFile, id: string) returns (resp: Response)
    requires repo.Valid()
    modifies repo
    ensures repo.Valid()
    ensures var current := StoredIcon(Store.FindById(old(repo.contents), id));
      && (id == "" || (Truthy(current) && !current.Str?) ==> repo.contents == old(repo.contents))
      && (id == "" ==> resp == BadRequest)
      && (id != "" && Truthy(current) && !current.Str? ==> resp == ServerError)
      && (id != "" && !(Truthy(current) && !current.Str?) ==>
            && repo.contents == Store.AfterDelete(old(repo.contents), id)
            && resp == if Store.FindById(old(repo.contents), id).Some? then Redirect("/equipment") else NotFound)
  {
    if id == "" {
      return BadRequest;
    }
    var equipment := repo.FindById(id);
    assert equipment == Store.FindById(repo.contents, id);
    var current := if equipment.Some? then Get(equipment.value, "icon") else Undefined;
    if Truthy(current) && !current.Str? {
      return ServerError;
    }
    var deleted := repo.Delete(id);
    if !deleted {
      return NotFound;
    }
    resp := Redirect("/equipment");
  }
}
