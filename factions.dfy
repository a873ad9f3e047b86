/**
 * admin/src/routes/factions.ts: both handlers build `{ name }` and add
 * `icon` as `icon || null` when the field was sent.
 */
module Factions {
  import opened Json
  import opened Forms
  import Store
  import Models
  import Repository

  const OptionalFields: set<string> := {"icon"}

  /** The input both handlers build from the body. */
  function Input(f: Form): Record
  {
    NamedInput(f, OptionalFields)
  }

  method BuildInput(f: Form) returns (input: Record)
    ensures input == Input(f)
  {
    ghost var sent: set<string> := {};
    input := map["name" := FieldValue(f, "name")];
    assert input == NamedInput(f, sent);
    input := SetOrNull(input, f, "icon");
    NamedInputStep(f, sent, "icon");
    sent := sent + {"icon"};
    assert sent == OptionalFields;
  }

  /** A form with one name and one non-empty icon gives a well-typed create input. */
  lemma InputConforms(f: Form)
    requires "name" in f && f["name"].One?
    requires "icon" in f && f["icon"].One? && f["icon"].s != ""
    ensures Models.Conforms(Input(f), Models.FactionCreateSchema)
  {
    var input := Input(f);
    var sc := Models.FactionCreateSchema;
    assert input.Keys == {"name", "icon"};
    assert sc.Keys == {"name", "image", "icon"};
    forall k | k in input
      ensures k in sc && input[k] != Undefined && input[k] != Null && Models.Fits(input[k], sc[k].shape)
    {
      assert input[k] == Str(f[k].s);
      assert sc[k].shape == Models.StrShape;
    }
  }

  /** A non-empty icon is stored under `icon`. */
  lemma IconStored(f: Form, id: string)
    requires "icon" in f && f["icon"].One? && f["icon"].s != ""
    ensures "icon" in Persist(Store.Created(id, Input(f)))
  {
    var c := Store.Created(id, Input(f));
    assert "icon" in c && c["icon"] == Str(f["icon"].s);
    PersistAt(c, "icon");
  }

  /**
   * The handler stores the picture under `icon`, which the create input
   * declares but a stored Faction does not (it declares `image`): a faction
   * created with an icon is not a well-typed Faction.
   */
  lemma IconIsNotAFactionField(f: Form, id: string)
    requires "name" in f && f["name"].One?
    requires "icon" in f && f["icon"].One? && f["icon"].s != ""
    ensures Models.Conforms(Input(f), Models.FactionCreateSchema)
    ensures !Models.Conforms(Persist(Store.Created(id, Input(f))), Models.FactionSchema)
  {
    InputConforms(f);
    IconStored(f, id);
    Models.FactionHasNoIcon(Persist(Store.Created(id, Input(f))));
  }

  method Create(repo: Repository.JsonFile, id: string, f: Form) returns (resp: Response)
    requires repo.Valid()
    modifies repo
    ensures repo.Valid()
    ensures repo.contents == Store.AfterCreate(old(repo.contents), id, Input(f))
    ensures resp == Redirect("/factions")
  {
    var input := BuildInput(f);
    var _ := repo.Create(id, input);
    resp := Redirect("/factions");
  }

  /** PUT `/:id`: 404 when no faction has the id. */
  method Update(repo: Repository.JsonFile, id: string, f: Form) returns (resp: Response)
    requires repo.Valid()
    modifies repo
    ensures repo.Valid()
    ensures repo.contents == Store.AfterUpdate(old(repo.contents), id, Input(f))
    ensures resp == if Store.FindById(old(repo.contents), id).Some? then Redirect("/factions") else NotFound
  {
    var input := BuildInput(f);
    var updated := repo.Update(id, input);
    if updated.None? {
      return NotFound;
    }
    resp := Redirect("/factions");
  }

  /** POST `/:id/delete`: the result of the deletion is ignored. */
  method Delete(repo: Repository.JsonFile, id: string) returns (resp: Response)
    requires repo.Valid()
    modifies repo
    ensures repo.Valid()
    ensures repo.contents == Store.AfterDelete(old(repo.contents), id)
    ensures resp == Redirect("/factions")
  {
    var _ := repo.Delete(id);
    resp := Redirect("/factions");
  }
}
