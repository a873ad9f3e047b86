/**
 * admin/src/routes/skill-effects.ts: the create and update handlers build the
 * same input, `name` always and `category`/`description` as `value || null`
 * when the field was sent.
 */
module SkillEffects {
  import opened Base
  import opened Json
  import opened Forms
  import Store
  import Models
  import Repository

  const OptionalFields: set<string> := {"category", "description"}

  /** The input both handlers build from the body. */
  function Input(f: Form): Record
  {
    NamedInput(f, OptionalFields)
  }

  /** The handlers' successive conditional assignments. */
  method BuildInput(f: Form) returns (input: Record)
    ensures input == Input(f)
  {
    ghost var sent: set<string> := {};
    input := map["name" := FieldValue(f, "name")];
    assert input == NamedInput(f, sent);
    input := SetOrNull(input, f, "category");
    NamedInputStep(f, sent, "category");
    sent := sent + {"category"};
    input := SetOrNull(input, f, "description");
    NamedInputStep(f, sent, "description");
    sent := sent + {"description"};
    assert sent == OptionalFields;
  }

  /** An empty category is stored as `null`, which a SkillEffect does not allow. */
  lemma EmptyCategoryBreaksSchema(f: Form, id: string)
    requires "category" in f && f["category"] == One("")
    ensures !Models.Conforms(Persist(Store.Created(id, Input(f))), Models.SkillEffectSchema)
  {
    var r := Persist(Store.Created(id, Input(f)));
    PersistAt(Store.Created(id, Input(f)), "category");
    assert r["category"] == Null;
  }

  /** A complete form gives a well-typed create input. */
  lemma FullFormInput(f: Form)
    requires f.Keys == {"name", "category", "description"}
    requires f["name"].One? && f["description"].One? && f["description"].s != ""
    requires f["category"].One? && f["category"].s in Models.SkillEffectCategoryLabels
    ensures Models.Conforms(Input(f), Models.SkillEffectCreateSchema)
    ensures IsJsonRecord(Input(f))
  {
    var input := Input(f);
    var sc := Models.SkillEffectCreateSchema;
    assert input.Keys == sc.Keys == {"name", "category", "description"};
    assert f["category"].s != "";
    forall k | k in input
      ensures k in sc && input[k] != Undefined && input[k] != Null && Models.Fits(input[k], sc[k].shape) && IsJson(input[k])
    {
      assert input[k] == Str(f[k].s);
    }
  }

  /** A complete form yields a well-typed SkillEffect. */
  lemma FullFormConforms(f: Form, id: string)
    requires f.Keys == {"name", "category", "description"}
    requires f["name"].One? && f["description"].One? && f["description"].s != ""
    requires f["category"].One? && f["category"].s in Models.SkillEffectCategoryLabels
    ensures Models.Conforms(Persist(Store.Created(id, Input(f))), Models.SkillEffectSchema)
  {
    FullFormInput(f);
    Models.SkillEffectStored(Input(f), id);
  }

  /** POST `/`: creates the effect under the id `generateId()` produced. */
  method Create(repo: Repository.JsonFile, id: string, f: Form) returns (resp: Response)
    requires repo.Valid()
    modifies repo
    ensures repo.Valid()
    ensures repo.contents == Store.AfterCreate(old(repo.contents), id, Input(f))
    ensures resp == Redirect("/skill-effects")
  {
    var input := BuildInput(f);
    var _ := repo.Create(id, input);
    resp := Redirect("/skill-effects");
  }

  /** PUT `/:id`: 404 when no effect has the id. */
  method Update(repo: Repository.JsonFile, id: string, f: Form) returns (resp: Response)
    requires repo.Valid()
    modifies repo
    ensures repo.Valid()
    ensures repo.contents == Store.AfterUpdate(old(repo.contents), id, Input(f))
    ensures resp == if Store.FindById(old(repo.contents), id).Some? then Redirect("/skill-effects") else NotFound
  {
    var input := BuildInput(f);
    var updated := repo.Update(id, input);
    if updated.None? {
      return NotFound;
    }
    resp := Redirect("/skill-effects");
  }

  /** POST `/:id/delete`: the result of the deletion is ignored. */
  method Delete(repo: Repository.JsonFile, id: string) returns (resp: Response)
    requires repo.Valid()
    modifies repo
    ensures repo.Valid()
    ensures repo.contents == Store.AfterDelete(old(repo.contents), id)
    ensures resp == Redirect("/skill-effects")
  {
    var _ := repo.Delete(id);
    resp := Redirect("/skill-effects");
  }
}
