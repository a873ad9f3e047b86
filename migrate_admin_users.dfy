/**
 * admin/src/scripts/migrate-admin-users.js: every stored administrator with a
 * plaintext `password` and no `passwordHash` gets the hash of the password and
 * loses the plaintext, in place; the file is written back only when some user
 * changed. `bcrypt.hash` is the parameter `hash`; it rejects a password that
 * is not a string, and the loop then logs the error and leaves the user as it was.
 */
module MigrateAdminUsers {
  import opened Json
  import Repository

  /** `user.password && !user.passwordHash`. */
  predicate NeedsHash(u: Record)
  {
    Truthy(Get(u, "password")) && !Truthy(Get(u, "passwordHash"))
  }

  /** A user the loop changes: one that needs a hash and whose password `bcrypt` accepts. */
  predicate Hashable(u: Record)
  {
    NeedsHash(u) && Get(u, "password").Str?
  }

  /** One user after the loop body ran on it. */
  function Migrated(u: Record, hash: string -> string): Record
  {
    if Hashable(u) then (u - {"password"})["passwordHash" := Str(hash(u["password"].s))] else u
  }

  /** A hashable user trades `password` for its hash; any other user is untouched. */
  lemma MigratedShape(u: Record, hash: string -> string)
    ensures !Hashable(u) ==> Migrated(u, hash) == u
    ensures Hashable(u) ==>
      && Migrated(u, hash).Keys == u.Keys - {"password"} + {"passwordHash"}
      && Migrated(u, hash)["passwordHash"] == Str(hash(u["password"].s))
      && forall k :: k in u && k != "password" && k != "passwordHash" ==> Migrated(u, hash)[k] == u[k]
  {
  }

  /** The whole list after the migration: same length and order, each user migrated. */
  function MigrateAll(us: seq<Record>, hash: string -> string): (r: seq<Record>)
    ensures |r| == |us|
    ensures forall i :: 0 <= i < |us| ==> r[i] == Migrated(us[i], hash)
  {
    seq(|us|, i requires 0 <= i < |us| => Migrated(us[i], hash))
  }

  /** The `for ... of` loop over the loaded array, setting `updated` when a user changed. */
  method Migrate(users: array<Record>, hash: string -> string) returns (updated: bool)
    modifies users
    ensures users[..] == MigrateAll(old(users[..]), hash)
    ensures updated <==> exists i :: 0 <= i < users.Length && Hashable(old(users[i]))
  {
    ghost var loaded := users[..];
    updated := false;
    for i := 0 to users.Length
      invariant forall j :: 0 <= j < i ==> users[j] == Migrated(loaded[j], hash)
      invariant forall j :: i <= j < users.Length ==> users[j] == loaded[j]
      invariant updated <==> exists j :: 0 <= j < i && Hashable(loaded[j])
    {
      var user, changed := MigrateUser(users[i], hash);
      if changed {
        users[i] := user;
        updated := true;
      }
    }
  }

  /** The loop body on one user: sets the hash, then deletes the plaintext. */
  method MigrateUser(u: Record, hash: string -> string) returns (user: Record, changed: bool)
    ensures changed <==> Hashable(u)
    ensures user == Migrated(u, hash)
  {
    user, changed := u, false;
    if Truthy(Get(user, "password")) && !Truthy(Get(user, "passwordHash")) {
      var password := Get(user, "password");
      if password.Str? {
        user := user["passwordHash" := Str(hash(password.s))];
        user := user - {"password"};
        assert user == Migrated(u, hash);
        changed := true;
      }
    }
  }

  /** A list in which no user can be migrated is left as it is. */
  lemma NothingToMigrate(us: seq<Record>, hash: string -> string)
    requires forall i :: 0 <= i < |us| ==> !Hashable(us[i])
    ensures MigrateAll(us, hash) == us
  {
    forall i | 0 <= i < |us| ensures MigrateAll(us, hash)[i] == us[i] {
      assert !Hashable(us[i]);
    }
  }

  /**
   * A bcrypt hash is never empty, so after one run no user is left to migrate
   * and a second run changes nothing.
   */
  lemma MigrateIdempotent(us: seq<Record>, hash: string -> string)
    requires forall s :: hash(s) != ""
    ensures forall i :: 0 <= i < |us| ==> !Hashable(MigrateAll(us, hash)[i])
    ensures MigrateAll(MigrateAll(us, hash), hash) == MigrateAll(us, hash)
  {
    var m := MigrateAll(us, hash);
    forall i | 0 <= i < |us| ensures !Hashable(m[i]) {
      MigratedShape(us[i], hash);
    }
    NothingToMigrate(m, hash);
  }

  /** `migrateAdminUsers()` on the file: written back exactly when some user was hashed. */
  method Run(file: Repository.JsonFile, hash: string -> string)
    requires file.Valid()
    modifies file
    ensures file.Valid()
    ensures file.contents == MigrateAll(old(file.contents), hash)
    ensures file.writes == if exists i :: 0 <= i < |old(file.contents)| && Hashable(old(file.contents)[i])
      then old(file.writes) + 1 else old(file.writes)
  {
    var loaded := file.contents;
    if |loaded| == 0 {
      return;
    }
    var users := new Record[|loaded|](i requires 0 <= i < |loaded| => loaded[i]);
    assert users[..] == loaded;
    var updated := Migrate(users, hash);
    if updated {
      file.contents := users[..];
      file.writes := file.writes + 1;
    } else {
      NothingToMigrate(loaded, hash);
    }
  }
}
