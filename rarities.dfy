/**
 * admin/src/routes/rarities.ts: `{ name }` plus `value || null` when sent;
 * on create the uploaded picture's public path as `image`, on update the
 * picture chosen by the ladder: new upload, reset flag, the current picture
 * the form echoes back, or nothing.
 */
module Rarities {
  import opened Base
  import opened Json
  import opened Forms
  import Store
  import Models
  import Repository
  import Upload

  const OptionalFields: set<string> := {"value"}

  /** The create input: `value` is not parsed, and `image` is set only when a file came. */
  function CreateInput(f: Form, file: Option<UploadedFile>): (input: Record)
    ensures "value" in f ==> "value" in input && input["value"] == OrNull(FieldValue(f, "value"))
    ensures HasFile(file) ==> "image" in input && input["image"] == Str(Upload.PublicPath(file.value.filename))
    ensures !HasFile(file) ==> "image" !in input
  {
    var base := NamedInput(f, OptionalFields);
    if HasFile(file) then base["image" := Str(Upload.PublicPath(file.value.filename))] else base
  }

  method BuildCreateInput(f: Form, file: Option<UploadedFile>) returns (input: Record)
    ensures input == CreateInput(f, file)
  {
    input := map["name" := FieldValue(f, "name")];
    assert input == NamedInput(f, {});
    input := SetOrNull(input, f, "value");
    NamedInputStep(f, {}, "value");
    assert {} + {"value"} == OptionalFields;
    if file.Some? && file.value.filename != "" {
      input := input["image" := Str(Upload.PublicPath(file.value.filename))];
    }
  }

  /** `currentIcon && currentIcon !== ''`. */
  predicate HasCurrentIcon(f: Form)
  {
    Truthy(FieldValue(f, "currentIcon")) && FieldValue(f, "currentIcon") != Str("")
  }

  /**
   * The update's picture ladder. Removing the old file calls
   * `currentIcon.replace`, which throws when the form sent `currentIcon` twice.
   */
  function ImageChoice(f: Form, file: Option<UploadedFile>): Choice
  {
    var current := FieldValue(f, "currentIcon");
    if HasFile(file) then
      if HasCurrentIcon(f) && !current.Str? then Throw else Put(Str(Upload.PublicPath(file.value.filename)))
    else if FieldIs(f, "iconReset", "true") then
      if HasCurrentIcon(f) && !current.Str? then Throw else Put(Str(""))
    else if HasCurrentIcon(f) then Put(current)
    else Leave
  }

  function UpdateInput(f: Form, file: Option<UploadedFile>): Option<Record>
  {
    Apply(NamedInput(f, OptionalFields), "image", ImageChoice(f, file))
  }

  method BuildUpdateInput(f: Form, file: Option<UploadedFile>) returns (input: Option<Record>)
    ensures input == UpdateInput(f, file)
  {
    var r: Record := map["name" := FieldValue(f, "name")];
    assert r == NamedInput(f, {});
    r := SetOrNull(r, f, "value");
    NamedInputStep(f, {}, "value");
    assert {} + {"value"} == OptionalFields;
    assert r == NamedInput(f, OptionalFields);
    var current := FieldValue(f, "currentIcon");
    if file.Some? && file.value.filename != "" {
      r := r["image" := Str(Upload.PublicPath(file.value.filename))];
      if Truthy(current) && current != Str("") && !current.Str? {
        return None;
      }
    } else if FieldValue(f, "iconReset") == Str("true") {
      r := r["image" := Str("")];
      if Truthy(current) && current != Str("") && !current.Str? {
        return None;
      }
    } else if Truthy(current) && current != Str("") {
      r := r["image" := current];
    }
    input := Some(r);
  }

  /** An edit that neither uploads, nor resets, nor echoes a current picture keeps the stored one. */
  lemma PlainEditKeepsImage(stored: Record, f: Form, file: Option<UploadedFile>, id: string)
    requires !HasFile(file) && !FieldIs(f, "iconReset", "true") && !HasCurrentIcon(f)
    ensures UpdateInput(f, file) == Some(NamedInput(f, OptionalFields))
    ensures Get(Store.Merge(stored, UpdateInput(f, file).value, id), "image") == Get(stored, "image")
  {
  }

  /** An upload always replaces the stored picture, unless the ladder throws. */
  lemma UploadReplacesImage(stored: Record, f: Form, file: Option<UploadedFile>, id: string)
    requires HasFile(file) && UpdateInput(f, file).Some?
    ensures Store.Merge(stored, UpdateInput(f, file).value, id)["image"] == Str(Upload.PublicPath(file.value.filename))
  {
  }

  /** The update throws exactly when an old file is to be removed and `currentIcon` was sent twice. */
  lemma UpdateThrows(f: Form, file: Option<UploadedFile>)
    ensures UpdateInput(f, file).None? <==>
      (HasFile(file) || FieldIs(f, "iconReset", "true")) && "currentIcon" in f && f["currentIcon"].Many?
  {
    if "currentIcon" in f && f["currentIcon"].Many? {
      assert HasCurrentIcon(f);
    }
  }

  /** A value sent as text is stored as a string, so the stored Rarity is not well typed. */
  lemma ValueStaysText(f: Form, file: Option<UploadedFile>, id: string)
    requires "value" in f && f["value"].One? && f["value"].s != ""
    ensures Persist(Store.Created(id, CreateInput(f, file)))["value"] == Str(f["value"].s)
    ensures !Models.Conforms(Persist(Store.Created(id, CreateInput(f, file))), Models.RaritySchema)
  {
    var c := Store.Created(id, CreateInput(f, file));
    PersistAt(c, "value");
    assert !Models.Fits(Str(f["value"].s), Models.NumShape);
  }

  method Create(repo: Repository.JsonFile, id: string, f: Form, file: Option<UploadedFile>) returns (resp: Response)
    requires repo.Valid()
    modifies repo
    ensures repo.Valid()
    ensures repo.contents == Store.AfterCreate(old(repo.contents), id, CreateInput(f, file))
    ensures resp == Redirect("/rarities")
  {
    var input := BuildCreateInput(f, file);
    var _ := repo.Create(id, input);
    resp := Redirect("/rarities");
  }

  /** POST `/:id`: 500 when the ladder throws, 404 when no rarity has the id. */
  method Update(repo: Repository.JsonFile, id: string, f: Form, file: Option<UploadedFile>) returns (resp: Response)
    requires repo.Valid()
    modifies repo
    ensures repo.Valid()
    ensures UpdateInput(f, file).None? ==> resp == ServerError && repo.contents == old(repo.contents)
    ensures UpdateInput(f, file).Some? ==>
      && repo.contents == Store.AfterUpdate(old(repo.contents), id, UpdateInput(f, file).value)
      && resp == if Store.FindById(old(repo.contents), id).Some? then Redirect("/rarities") else NotFound
  {
    var input := BuildUpdateInput(f, file);
    if input.None? {
      return ServerError;
    }
    var updated := repo.Update(id, input.value);
    if updated.None? {
      return NotFound;
    }
    resp := Redirect("/rarities");
  }

  /** POST `/:id/delete`: the result of the deletion is ignored. */
  method Delete(repo: Repository.JsonFile, id: string) returns (resp: Response)
    requires repo.Valid()
    modifies repo
    ensures repo.Valid()
    ensures repo.contents == Store.AfterDelete(old(repo.contents), id)
    ensures resp == Redirect("/rarities")
  {
    var _ := repo.Delete(id);
    resp := Redirect("/rarities");
  }
}
