/**
 * admin/src/routes/admin-users.ts: an administrator is stored with a hash of
 * the password, never the password itself, and an edit re-hashes only when a
 * non-blank password is sent. `bcrypt.hash` is the parameter `hash`; it throws
 * when the password is not a string (absent, or sent twice), which the handler
 * answers with 500.
 */
module AdminUsers {
  import opened Base
  import opened Json
  import opened Text
  import opened Forms
  import Store
  import Models
  import Repository

  /** `{ username, passwordHash: await bcrypt.hash(password) }`. */
  function CreateInput(f: Form, hash: string -> string): (r: Option<Record>)
    ensures r.Some? <==> "password" in f && f["password"].One?
    ensures r.Some? ==> r.value.Keys == {"username", "passwordHash"}
    ensures r.Some? ==> r.value["username"] == FieldValue(f, "username")
    ensures r.Some? ==> r.value["passwordHash"] == Str(hash(f["password"].s))
  {
    var password := FieldValue(f, "password");
    if password.Str? then Some(map["username" := FieldValue(f, "username"), "passwordHash" := Str(hash(password.s))])
    else None
  }

  /**
   * `{ username }`, plus `passwordHash` when `password && password.trim() !== ""`;
   * `trim` throws on a password sent twice.
   */
  function UpdateInput(f: Form, hash: string -> string): (r: Option<Record>)
  {
    var password := FieldValue(f, "password");
    var input := map["username" := FieldValue(f, "username")];
    if !Truthy(password) then Some(input)
    else if !password.Str? then None
    else if Trim(password.s) != "" then Some(input["passwordHash" := Str(hash(password.s))])
    else Some(input)
  }

  method BuildUpdateInput(f: Form, hash: string -> string) returns (r: Option<Record>)
    ensures r == UpdateInput(f, hash)
  {
    var password := FieldValue(f, "password");
    var input := map["username" := FieldValue(f, "username")];
    if Truthy(password) {
      if !password.Str? {
        return None;
      }
      if Trim(password.s) != "" {
        input := input["passwordHash" := Str(hash(password.s))];
      }
    }
    r := Some(input);
  }

  /** The update input always carries the username, and a hash only of a password with a non-blank character. */
  lemma UpdateInputShape(f: Form, hash: string -> string)
    ensures UpdateInput(f, hash).None? <==> "password" in f && f["password"].Many?
    ensures UpdateInput(f, hash).Some? ==>
      && UpdateInput(f, hash).value["username"] == FieldValue(f, "username")
      && "password" !in UpdateInput(f, hash).value
      && ("passwordHash" in UpdateInput(f, hash).value <==> "password" in f && f["password"].One? && !IsBlank(f["password"].s))
  {
    var input := map["username" := FieldValue(f, "username")];
    assert "password" !in input && "passwordHash" !in input;
    if "password" !in f {
      assert UpdateInput(f, hash) == Some(input);
    } else {
      match f["password"]
      case Many(xs) =>
        assert FieldValue(f, "password") == Arr(Strs(xs));
        assert UpdateInput(f, hash).None?;
      case One(s) =>
        TrimEmptyIffBlank(s);
        assert FieldValue(f, "password") == Str(s);
        if s == "" || Trim(s) == "" {
          assert UpdateInput(f, hash) == Some(input);
        } else {
          assert UpdateInput(f, hash) == Some(input["passwordHash" := Str(hash(s))]);
        }
    }
  }

  /** A blank or missing password leaves the stored hash as it was. */
  lemma BlankPasswordKeepsHash(stored: Record, f: Form, hash: string -> string, id: string)
    requires "password" !in f || (f["password"].One? && IsBlank(f["password"].s))
    ensures UpdateInput(f, hash).Some?
    ensures Get(Store.Merge(stored, UpdateInput(f, hash).value, id), "passwordHash") == Get(stored, "passwordHash")
  {
    UpdateInputShape(f, hash);
  }

  /** A password with a non-blank character replaces the stored hash by its own. */
  lemma NewPasswordReplacesHash(stored: Record, f: Form, hash: string -> string, id: string)
    requires "password" in f && f["password"].One? && !IsBlank(f["password"].s)
    ensures UpdateInput(f, hash).Some?
    ensures Store.Merge(stored, UpdateInput(f, hash).value, id)["passwordHash"] == Str(hash(f["password"].s))
  {
    UpdateInputShape(f, hash);
  }

  /** A form with one username and one password gives a well-typed create input. */
  lemma CreateInputConforms(f: Form, hash: string -> string)
    requires "username" in f && f["username"].One? && "password" in f && f["password"].One?
    ensures Models.Conforms(CreateInput(f, hash).value, Models.AdminUserCreateSchema)
    ensures IsJsonRecord(CreateInput(f, hash).value)
  {
    var input := CreateInput(f, hash).value;
    var sc := Models.AdminUserCreateSchema;
    assert input.Keys == sc.Keys == {"username", "passwordHash"};
    forall k | k in input
      ensures k in sc && input[k] != Undefined && input[k] != Null && Models.Fits(input[k], sc[k].shape) && IsJson(input[k])
    {
      assert input[k].Str?;
    }
  }

  /** What `create` stores for a hashed password holds no `password` property. */
  lemma NoPlaintext(f: Form, hash: string -> string, id: string)
    requires "password" in f && f["password"].One?
    ensures "password" !in Persist(Store.Created(id, CreateInput(f, hash).value))
  {
    var c := Store.Created(id, CreateInput(f, hash).value);
    assert "password" !in c;
    PersistAt(c, "password");
  }

  /** A form with one username and one password yields a well-typed AdminUser without a plaintext password. */
  lemma CreatedConforms(f: Form, hash: string -> string, id: string)
    requires "username" in f && f["username"].One? && "password" in f && f["password"].One?
    ensures var c := Persist(Store.Created(id, CreateInput(f, hash).value));
      Models.Conforms(c, Models.AdminUserSchema) && "password" !in c
  {
    CreateInputConforms(f, hash);
    Models.AdminUserStored(CreateInput(f, hash).value, id);
    NoPlaintext(f, hash, id);
  }

  /** POST `/`: 500 when hashing throws. */
  method Create(repo: Repository.JsonFile, id: string, f: Form, hash: string -> string) returns (resp: Response)
    requires repo.Valid()
    modifies repo
    ensures repo.Valid()
    ensures CreateInput(f, hash).None? ==> resp == ServerError && repo.contents == old(repo.contents)
    ensures CreateInput(f, hash).Some? ==>
      && repo.contents == Store.AfterCreate(old(repo.contents), id, CreateInput(f, hash).value)
      && resp == Redirect("/admin-users")
  {
    var password := FieldValue(f, "password");
    if !password.Str? {
      return ServerError;
    }
    var input := map["username" := FieldValue(f, "username"), "passwordHash" := Str(hash(password.s))];
    var _ := repo.Create(id, input);
    resp := Redirect("/admin-users");
  }

  /** POST `/:id`: the result of the update is ignored, so an unknown id still redirects. */
  method Update(repo: Repository.JsonFile, id: string, f: Form, hash: string -> string) returns (resp: Response)
    requires repo.Valid()
    modifies repo
    ensures repo.Valid()
    ensures UpdateInput(f, hash).None? ==> resp == ServerError && repo.contents == old(repo.contents)
    ensures UpdateInput(f, hash).Some? ==>
      && repo.contents == Store.AfterUpdate(old(repo.contents), id, UpdateInput(f, hash).value)
      && resp == Redirect("/admin-users")
  {
    var input := BuildUpdateInput(f, hash);
    if input.None? {
      return ServerError;
    }
    var _ := repo.Update(id, input.value);
    resp := Redirect("/admin-users");
  }

  /** POST `/:id/delete`: the result of the deletion is ignored. */
  method Delete(repo: Repository.JsonFile, id: string) returns (resp: Response)
    requires repo.Valid()
    modifies repo
    ensures repo.Valid()
    ensures repo.contents == Store.AfterDelete(old(repo.contents), id)
    ensures resp == Redirect("/admin-users")
  {
    var _ := repo.Delete(id);
    resp := Redirect("/admin-users");
  }
}
