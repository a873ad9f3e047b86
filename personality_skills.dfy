/**
 * admin/src/routes/personality-skills.ts: the input is an object literal whose
 * five star descriptions default to `''` and whose effect ids are a list; the
 * create adds the uploaded file's bare name as icon, the update always sets an
 * icon chosen by the four-way ladder. The PUT and POST update routes build the
 * same input and answer the same way, so `Update` models both.
 */
module PersonalitySkills {
  import opened Base
  import opened Json
  import opened Forms
  import Store
  import Models
  import Repository

  const StarFields: set<string> :=
    {"star1Description", "star2Description", "star3Description", "star4Description", "star5Description"}

  /** The object literal both create and update start from. */
  function Literal(f: Form): (input: Record)
    ensures input.Keys == {"name", "effectIds"} + StarFields
    ensures input["name"] == FieldValue(f, "name")
    ensures input["effectIds"] == ToList(FieldValue(f, "effectIds"))
    ensures forall k :: k in StarFields ==> input[k] == OrEmpty(FieldValue(f, k))
  {
    (map k | k in StarFields :: OrEmpty(FieldValue(f, k)))
      ["name" := FieldValue(f, "name")]
      ["effectIds" := ToList(FieldValue(f, "effectIds"))]
  }

  function CreateInput(f: Form, file: Option<UploadedFile>): Record
  {
    WithUploadedIcon(Literal(f), file)
  }

  function UpdateInput(f: Form, file: Option<UploadedFile>): Record
  {
    WithLadderIcon(Literal(f), f, file)
  }

  /**
   * The update always sets the icon, so the stored one never survives
   * implicitly: a form that neither uploads, resets nor echoes it clears it to `''`.
   */
  lemma UpdateOverwritesIcon(stored: Record, f: Form, file: Option<UploadedFile>, id: string)
    ensures Store.Merge(stored, UpdateInput(f, file), id)["icon"] == IconLadder(f, file)
    ensures !HasFile(file) && "currentIcon" !in f ==> Store.Merge(stored, UpdateInput(f, file), id)["icon"] == Str("")
  {
  }

  /** A missing star description is `''` in the update input. */
  lemma StarDefault(f: Form, file: Option<UploadedFile>, k: string)
    requires k in StarFields && k !in f
    ensures k in UpdateInput(f, file) && UpdateInput(f, file)[k] == Str("")
  {
    assert k != "icon";
    assert Literal(f)[k] == Str("");
  }

  /** A missing star description is stored as `''`, whatever was stored before. */
  lemma MissingStarClears(stored: Record, f: Form, file: Option<UploadedFile>, id: string, k: string)
    requires k in StarFields && k !in f
    ensures k in Persist(Store.Merge(stored, UpdateInput(f, file), id))
    ensures Persist(Store.Merge(stored, UpdateInput(f, file), id))[k] == Str("")
  {
    StarDefault(f, file, k);
    Store.PersistMergeAt(stored, UpdateInput(f, file), id, k);
  }

  /** What the create interface declares for the properties the handlers set. */
  lemma CreateSchemaFields()
    ensures forall k :: k in StarFields ==> k in Models.PersonalitySkillCreateSchema && Models.PersonalitySkillCreateSchema[k] == Models.Req(Models.StrShape)
    ensures forall k :: k in Models.PersonalitySkillCreateSchema && !Models.PersonalitySkillCreateSchema[k].optional ==> k == "name" || k in StarFields
    ensures "name" in Models.PersonalitySkillCreateSchema && Models.PersonalitySkillCreateSchema["name"] == Models.Req(Models.StrShape)
    ensures "effectIds" in Models.PersonalitySkillCreateSchema && Models.PersonalitySkillCreateSchema["effectIds"] == Models.Opt(Models.ListOf(Models.StrShape))
    ensures "icon" in Models.PersonalitySkillCreateSchema && Models.PersonalitySkillCreateSchema["icon"] == Models.Opt(Models.StrShape)
  {
  }

  /**
   * A record of the create input's keys, the icon optional, with string name,
   * descriptions and icon and a list of string ids, is a create input.
   */
  lemma RecordConforms(r: Record)
    requires forall k :: k in r ==> k == "name" || k == "effectIds" || k == "icon" || k in StarFields
    requires "name" in r && "effectIds" in r && forall k :: k in StarFields ==> k in r
    requires r["name"].Str? && forall k :: k in StarFields ==> r[k].Str?
    requires "icon" in r ==> r["icon"].Str?
    requires Models.Fits(r["effectIds"], Models.ListOf(Models.StrShape)) && IsJson(r["effectIds"])
    ensures Models.Conforms(r, Models.PersonalitySkillCreateSchema)
    ensures IsJsonRecord(r)
  {
    var sc := Models.PersonalitySkillCreateSchema;
    CreateSchemaFields();
    forall k | k in r
      ensures k in sc && r[k] != Undefined && r[k] != Null && Models.Fits(r[k], sc[k].shape) && IsJson(r[k])
    {
      if k in StarFields {
        assert r[k].Str? && sc[k].shape == Models.StrShape;
      }
    }
  }

  /** The literal's values for a form with one name and single star descriptions. */
  lemma LiteralValues(f: Form)
    requires "name" in f && f["name"].One?
    requires forall k :: k in StarFields && k in f ==> f[k].One?
    ensures Literal(f)["name"].Str? && forall k :: k in StarFields ==> Literal(f)[k].Str?
    ensures Models.Fits(Literal(f)["effectIds"], Models.ListOf(Models.StrShape)) && IsJson(Literal(f)["effectIds"])
  {
    FieldList(f, "effectIds");
    FieldIsJson(f, "effectIds");
    forall k | k in StarFields ensures Literal(f)[k].Str? {
      assert Literal(f)[k] == OrEmpty(FieldValue(f, k));
    }
  }

  /** A form with one name and single star descriptions gives a well-typed create input without an icon. */
  lemma LiteralConforms(f: Form)
    requires "name" in f && f["name"].One?
    requires forall k :: k in StarFields && k in f ==> f[k].One?
    ensures Models.Conforms(Literal(f), Models.PersonalitySkillCreateSchema)
    ensures IsJsonRecord(Literal(f))
  {
    LiteralValues(f);
    RecordConforms(Literal(f));
  }

  /** Such a form gives a well-typed JSON create input, with or without a file. */
  lemma InputConforms(f: Form, file: Option<UploadedFile>)
    requires "name" in f && f["name"].One?
    requires forall k :: k in StarFields && k in f ==> f[k].One?
    ensures Models.Conforms(CreateInput(f, file), Models.PersonalitySkillCreateSchema)
    ensures IsJsonRecord(CreateInput(f, file))
  {
    LiteralValues(f);
    var input := CreateInput(f, file);
    if HasFile(file) {
      var lit := Literal(f);
      assert input == lit["icon" := Str(file.value.filename)];
      assert "icon" !in StarFields;
      assert input["name"] == lit["name"] && input["effectIds"] == lit["effectIds"];
      forall k | k in StarFields ensures input[k].Str? {
        assert input[k] == lit[k];
      }
    }
    RecordConforms(input);
  }

  /** Such a form, with or without a file, is stored as a well-typed PersonalitySkill. */
  lemma CreatedConforms(f: Form, file: Option<UploadedFile>, id: string)
    requires "name" in f && f["name"].One?
    requires forall k :: k in StarFields && k in f ==> f[k].One?
    ensures Models.Conforms(Persist(Store.Created(id, CreateInput(f, file))), Models.PersonalitySkillSchema)
  {
    InputConforms(f, file);
    Models.PersonalitySkillStored(CreateInput(f, file), id);
  }

  method Create(repo: Repository.JsonFile, id: string, f: Form, file: Option<UploadedFile>) returns (resp: Response)
    requires repo.Valid()
    modifies repo
    ensures repo.Valid()
    ensures repo.contents == Store.AfterCreate(old(repo.contents), id, CreateInput(f, file))
    ensures resp == Redirect("/personality-skills")
  {
    var input := Literal(f);
    if file.Some? && file.value.filename != "" {
      input := input["icon" := Str(file.value.filename)];
    }
    var _ := repo.Create(id, input);
    resp := Redirect("/personality-skills");
  }

  /** PUT and POST `/:id`: 404 when the update finds no skill. */
  method Update(repo: Repository.JsonFile, id: string, f: Form, file: Option<UploadedFile>) returns (resp: Response)
    requires repo.Valid()
    modifies repo
    ensures repo.Valid()
    ensures repo.contents == Store.AfterUpdate(old(repo.contents), id, UpdateInput(f, file))
    ensures resp == if Store.FindById(old(repo.contents), id).Some? then Redirect("/personality-skills") else NotFound
  {
    var input := BuildWithLadderIcon(Literal(f), f, file);
    var updated := repo.Update(id, input);
    if updated.None? {
      return NotFound;
    }
    resp := Redirect("/personality-skills");
  }

  /** DELETE `/:id`: 404 when nothing was deleted. */
  method Delete(repo: Repository.JsonFile, id: string) returns (resp: Response)
    requires repo.Valid()
    modifies repo
    ensures repo.Valid()
    ensures repo.contents == Store.AfterDelete(old(repo.contents), id)
    ensures resp == if Store.FindById(old(repo.contents), id).Some? then Redirect("/personality-skills") else NotFound
  {
    var deleted := repo.Delete(id);
    if !deleted {
      return NotFound;
    }
    resp := Redirect("/personality-skills");
  }
}
