/**
 * admin/src/routes/roles.ts: create and update build the same input,
 * `{ name }` plus `value || null` for each of the five optional fields sent.
 * The numeric fields are passed on as the strings the form carried.
 */
module Roles {
  import opened Json
  import opened Forms
  import Store
  import Models
  import Repository

  const OptionalFields: set<string> := {"movementPower", "jumpHigh", "jumpLow", "terrainSuitability", "icon"}

  /** The input both handlers build from the body. */
  function Input(f: Form): Record
  {
    NamedInput(f, OptionalFields)
  }

  method BuildInput(f: Form) returns (input: Record)
    ensures input == Input(f)
  {
    ghost var sent: set<string> := {};
    input := map["name" := FieldValue(f, "name")];
    assert input == NamedInput(f, sent);
    input := SetOrNull(input, f, "movementPower");
    NamedInputStep(f, sent, "movementPower");
    sent := sent + {"movementPower"};
    input := SetOrNull(input, f, "jumpHigh");
    NamedInputStep(f, sent, "jumpHigh");
    sent := sent + {"jumpHigh"};
    input := SetOrNull(input, f, "jumpLow");
    NamedInputStep(f, sent, "jumpLow");
    sent := sent + {"jumpLow"};
    input := SetOrNull(input, f, "terrainSuitability");
    NamedInputStep(f, sent, "terrainSuitability");
    sent := sent + {"terrainSuitability"};
    input := SetOrNull(input, f, "icon");
    NamedInputStep(f, sent, "icon");
    sent := sent + {"icon"};
    FiveFieldsAdded("movementPower", "jumpHigh", "jumpLow", "terrainSuitability", "icon");
  }

  /** A movement power sent as text is stored as a string, so the stored Role is not well typed. */
  lemma MovementPowerStaysText(f: Form, id: string)
    requires "movementPower" in f && f["movementPower"].One? && f["movementPower"].s != ""
    ensures Persist(Store.Created(id, Input(f)))["movementPower"] == Str(f["movementPower"].s)
    ensures !Models.Conforms(Persist(Store.Created(id, Input(f))), Models.RoleSchema)
  {
    MovementPowerInput(f);
    Store.PersistCreatedAt(id, Input(f), "movementPower");
    Models.RoleMovementPowerIsNumber(Persist(Store.Created(id, Input(f))));
  }

  lemma MovementPowerInput(f: Form)
    requires "movementPower" in f && f["movementPower"].One? && f["movementPower"].s != ""
    ensures "movementPower" in Input(f) && Input(f)["movementPower"] == Str(f["movementPower"].s)
  {
    assert "movementPower" in OptionalFields;
  }

  method Create(repo: Repository.JsonFile, id: string, f: Form) returns (resp: Response)
    requires repo.Valid()
    modifies repo
    ensures repo.Valid()
    ensures repo.contents == Store.AfterCreate(old(repo.contents), id, Input(f))
    ensures resp == Redirect("/roles")
  {
    var input := BuildInput(f);
    var _ := repo.Create(id, input);
    resp := Redirect("/roles");
  }

  /** PUT `/:id`: 404 when no role has the id. */
  method Update(repo: Repository.JsonFile, id: string, f: Form) returns (resp: Response)
    requires repo.Valid()
    modifies repo
    ensures repo.Valid()
    ensures repo.contents == Store.AfterUpdate(old(repo.contents), id, Input(f))
    ensures resp == if Store.FindById(old(repo.contents), id).Some? then Redirect("/roles") else NotFound
  {
    var input := BuildInput(f);
    var updated := repo.Update(id, input);
    if updated.None? {
      return NotFound;
    }
    resp := Redirect("/roles");
  }

  /** POST `/:id/delete`: the result of the deletion is ignored. */
  method Delete(repo: Repository.JsonFile, id: string) returns (resp: Response)
    requires repo.Valid()
    modifies repo
    ensures repo.Valid()
    ensures repo.contents == Store.AfterDelete(old(repo.contents), id)
    ensures resp == Redirect("/roles")
  {
    var _ := repo.Delete(id);
    resp := Redirect("/roles");
  }
}
