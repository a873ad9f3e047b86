/**
 * admin/src/routes/ex-skills.ts: the same shape as the personality skills,
 * with three level descriptions. The `noEffectIds` branch gives `[]` either
 * way, so the effect ids follow the usual list normalisation. The update
 * ignores the repository's result; the PUT and POST update routes are the
 * same and `Update` models both.
 */
module ExSkills {
  import opened Base
  import opened Json
  import opened Forms
  import Store
  import Models
  import Repository

  const LevelFields: set<string> := {"lv1Description", "lv2Description", "lv3Description"}

  /** The object literal both create and update start from. */
  function Literal(f: Form): (input: Record)
    ensures input.Keys == {"name", "effectIds"} + LevelFields
    ensures input["name"] == FieldValue(f, "name")
    ensures input["effectIds"] == ToList(FieldValue(f, "effectIds"))
    ensures forall k :: k in LevelFields ==> input[k] == OrEmpty(FieldValue(f, k))
  {
    (map k | k in LevelFields :: OrEmpty(FieldValue(f, k)))
      ["name" := FieldValue(f, "name")]
      ["effectIds" := if Truthy(FieldValue(f, "effectIds")) then Wrap(FieldValue(f, "effectIds")) else Arr([])]
  }

  function CreateInput(f: Form, file: Option<UploadedFile>): Record
  {
    WithUploadedIcon(Literal(f), file)
  }

  function UpdateInput(f: Form, file: Option<UploadedFile>): Record
  {
    WithLadderIcon(Literal(f), f, file)
  }

  /** With no effect selected the list is empty, whether or not `noEffectIds` was sent. */
  lemma NoEffectIdsGivesEmpty(f: Form)
    requires "effectIds" !in f
    ensures Literal(f)["effectIds"] == Arr([])
    ensures Literal(f - {"noEffectIds"})["effectIds"] == Literal(f["noEffectIds" := One("true")])["effectIds"]
  {
  }

  /** The update always sets the icon; without upload, reset or echo the stored icon is cleared to `''`. */
  lemma UpdateOverwritesIcon(stored: Record, f: Form, file: Option<UploadedFile>, id: string)
    ensures Store.Merge(stored, UpdateInput(f, file), id)["icon"] == IconLadder(f, file)
    ensures !HasFile(file) && "currentIcon" !in f ==> Store.Merge(stored, UpdateInput(f, file), id)["icon"] == Str("")
  {
  }

  /** What the create interface declares for the properties the handlers set. */
  lemma CreateSchemaFields()
    ensures forall k :: k in LevelFields ==> k in Models.ExSkillCreateSchema && Models.ExSkillCreateSchema[k] == Models.Req(Models.StrShape)
    ensures forall k :: k in Models.ExSkillCreateSchema && !Models.ExSkillCreateSchema[k].optional ==> k == "name" || k in LevelFields
    ensures "name" in Models.ExSkillCreateSchema && Models.ExSkillCreateSchema["name"] == Models.Req(Models.StrShape)
    ensures "effectIds" in Models.ExSkillCreateSchema && Models.ExSkillCreateSchema["effectIds"] == Models.Opt(Models.ListOf(Models.StrShape))
    ensures "icon" in Models.ExSkillCreateSchema && Models.ExSkillCreateSchema["icon"] == Models.Opt(Models.StrShape)
  {
  }

  /**
   * A record of the create input's keys, the icon optional, with string name,
   * descriptions and icon and a list of string ids, is a create input.
   */
  lemma RecordConforms(r: Record)
    requires forall k :: k in r ==> k == "name" || k == "effectIds" || k == "icon" || k in LevelFields
    requires "name" in r && "effectIds" in r && forall k :: k in LevelFields ==> k in r
    requires r["name"].Str? && forall k :: k in LevelFields ==> r[k].Str?
    requires "icon" in r ==> r["icon"].Str?
    requires Models.Fits(r["effectIds"], Models.ListOf(Models.StrShape)) && IsJson(r["effectIds"])
    ensures Models.Conforms(r, Models.ExSkillCreateSchema)
    ensures IsJsonRecord(r)
  {
    var sc := Models.ExSkillCreateSchema;
    CreateSchemaFields();
    forall k | k in r
      ensures k in sc && r[k] != Undefined && r[k] != Null && Models.Fits(r[k], sc[k].shape) && IsJson(r[k])
    {
      if k in LevelFields {
        assert r[k].Str? && sc[k].shape == Models.StrShape;
      }
    }
  }

  /** The literal's values for a form with one name and single level descriptions. */
  lemma LiteralValues(f: Form)
    requires "name" in f && f["name"].One?
    requires forall k :: k in LevelFields && k in f ==> f[k].One?
    ensures Literal(f)["name"].Str? && forall k :: k in LevelFields ==> Literal(f)[k].Str?
    ensures Models.Fits(Literal(f)["effectIds"], Models.ListOf(Models.StrShape)) && IsJson(Literal(f)["effectIds"])
  {
    FieldList(f, "effectIds");
    FieldIsJson(f, "effectIds");
    forall k | k in LevelFields ensures Literal(f)[k].Str? {
      assert Literal(f)[k] == OrEmpty(FieldValue(f, k));
    }
  }

  /** A form with one name and single level descriptions gives a well-typed create input without an icon. */
  lemma LiteralConforms(f: Form)
    requires "name" in f && f["name"].One?
    requires forall k :: k in LevelFields && k in f ==> f[k].One?
    ensures Models.Conforms(Literal(f), Models.ExSkillCreateSchema)
    ensures IsJsonRecord(Literal(f))
  {
    LiteralValues(f);
    RecordConforms(Literal(f));
  }

  /** Such a form gives a well-typed JSON create input, with or without a file. */
  lemma InputConforms(f: Form, file: Option<UploadedFile>)
    requires "name" in f && f["name"].One?
    requires forall k :: k in LevelFields && k in f ==> f[k].One?
    ensures Models.Conforms(CreateInput(f, file), Models.ExSkillCreateSchema)
    ensures IsJsonRecord(CreateInput(f, file))
  {
    LiteralValues(f);
    var input := CreateInput(f, file);
    if HasFile(file) {
      var lit := Literal(f);
      assert input == lit["icon" := Str(file.value.filename)];
      assert "icon" !in LevelFields;
      assert input["name"] == lit["name"] && input["effectIds"] == lit["effectIds"];
      forall k | k in LevelFields ensures input[k].Str? {
        assert input[k] == lit[k];
      }
    }
    RecordConforms(input);
  }

  /** Such a form, with or without a file, is stored as a well-typed ExSkill. */
  lemma CreatedConforms(f: Form, file: Option<UploadedFile>, id: string)
    requires "name" in f && f["name"].One?
    requires forall k :: k in LevelFields && k in f ==> f[k].One?
    ensures Models.Conforms(Persist(Store.Created(id, CreateInput(f, file))), Models.ExSkillSchema)
  {
    InputConforms(f, file);
    Models.ExSkillStored(CreateInput(f, file), id);
  }

  method Create(repo: Repository.JsonFile, id: string, f: Form, file: Option<UploadedFile>) returns (resp: Response)
    requires repo.Valid()
    modifies repo
    ensures repo.Valid()
    ensures repo.contents == Store.AfterCreate(old(repo.contents), id, CreateInput(f, file))
    ensures resp == Redirect("/ex-skills")
  {
    var input := Literal(f);
    if file.Some? && file.value.filename != "" {
      input := input["icon" := Str(file.value.filename)];
    }
    var _ := repo.Create(id, input);
    resp := Redirect("/ex-skills");
  }

  /** PUT and POST `/:id`: the result is ignored, so an unknown id still redirects. */
  method Update(repo: Repository.JsonFile, id: string, f: Form, file: Option<UploadedFile>) returns (resp: Response)
    requires repo.Valid()
    modifies repo
    ensures repo.Valid()
    ensures repo.contents == Store.AfterUpdate(old(repo.contents), id, UpdateInput(f, file))
    ensures resp == Redirect("/ex-skills")
  {
    var input := BuildWithLadderIcon(Literal(f), f, file);
    var _ := repo.Update(id, input);
    resp := Redirect("/ex-skills");
  }

  /** DELETE `/:id`: 404 when nothing was deleted. */
  method Delete(repo: Repository.JsonFile, id: string) returns (resp: Response)
    requires repo.Valid()
    modifies repo
    ensures repo.Valid()
    ensures repo.contents == Store.AfterDelete(old(repo.contents), id)
    ensures resp == if Store.FindById(old(repo.contents), id).Some? then Redirect("/ex-skills") else NotFound
  {
    var deleted := repo.Delete(id);
    if !deleted {
      return NotFound;
    }
    resp := Redirect("/ex-skills");
  }
}
