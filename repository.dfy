/**
 * One repository object of shared/src/repository.ts: a JSON file holding an
 * array of records. Every operation reads the whole array, and the changing
 * ones write a whole new array back. `contents` is what the file holds and
 * `writes` counts the `writeJson` calls, so "no write" can be stated.
 */
module Repository {
  import opened Base
  import opened Json
  import Store

  class JsonFile {
    var contents: seq<Record>
    var writes: nat

    /** What `JSON.parse` can give back: no `undefined` and no `NaN` in any record. */
    predicate Valid()
      reads this
    {
      forall i :: 0 <= i < |contents| ==> IsJsonRecord(contents[i])
    }

    /** A file that does not exist yet reads as `[]`. */
    constructor Missing()
      ensures contents == [] && writes == 0
      ensures Valid()
    {
      contents := [];
      writes := 0;
    }

    /** `list()`. */
    method List() returns (all: seq<Record>)
      ensures all == contents
    {
      all := contents;
    }

    /** `findById(id)`: the first record with that id, or nothing. */
    method FindById(id: string) returns (r: Option<Record>)
      ensures r.Some? <==> exists i :: 0 <= i < |contents| && Store.HasId(contents[i], id)
      ensures r.Some? ==> r == Some(contents[Store.FirstIndex(contents, "id", Str(id))])
    {
      r := Store.FindById(contents, id);
    }

    /** `AdminUserRepository.findByUsername(username)`. */
    method FindByUsername(username: string) returns (r: Option<Record>)
      ensures r.Some? <==> exists i :: 0 <= i < |contents| && Store.Matches(contents[i], "username", Str(username))
      ensures r.Some? ==> r == Some(contents[Store.FirstIndex(contents, "username", Str(username))])
    {
      r := Store.FindByUsername(contents, username);
    }

    /** `CharacterRepository.search(query)`; `None` when the filter callback throws. */
    method Search(q: Store.CharacterQuery) returns (r: Option<seq<Record>>)
      ensures (forall i :: 0 <= i < |contents| ==> Store.Searchable(contents[i])) ==>
        r.Some? && forall c :: c in r.value <==> c in contents && Store.Satisfies(c, q)
      ensures q == Store.EmptyQuery ==> r == Some(contents)
    {
      r := Store.Search(contents, q);
      if forall i :: 0 <= i < |contents| ==> Store.Searchable(contents[i]) {
        Store.SearchIsFilter(contents, q);
      }
      if q == Store.EmptyQuery {
        Store.SearchEmptyQuery(contents);
      }
    }

    /**
     * `create(input)` with the id `generateId()` produced: the in-memory record
     * is returned, and what the file keeps is its JSON form, pushed at the end.
     */
    method Create(id: string, input: Record) returns (created: Record)
      requires Valid()
      modifies this
      ensures Valid()
      ensures created == Store.Created(id, input)
      ensures contents == old(contents) + [Persist(created)]
      ensures writes == old(writes) + 1
    {
      created := Store.Created(id, input);
      contents := contents + [Persist(created)];
      writes := writes + 1;
    }

    /**
     * `update(id, input)`: the first record with the id is replaced by the
     * shallow merge; nothing is written when no record has the id.
     */
    method Update(id: string, input: Record) returns (updated: Option<Record>)
      requires Valid()
      modifies this
      ensures Valid()
      ensures contents == Store.AfterUpdate(old(contents), id, input)
      ensures updated.None? <==> Store.FindById(old(contents), id).None?
      ensures updated.None? ==> writes == old(writes)
      ensures updated.Some? ==>
        && updated.value == Store.Merge(Store.FindById(old(contents), id).value, input, id)
        && writes == old(writes) + 1
    {
      var idx := Store.FirstIndex(contents, "id", Str(id));
      if idx == -1 {
        return None;
      }
      var merged := Store.Merge(contents[idx], input, id);
      contents := contents[idx := Persist(merged)];
      writes := writes + 1;
      updated := Some(merged);
    }

    /** `delete(id)`: drops every record with the id and writes only when one was dropped. */
    method Delete(id: string) returns (changed: bool)
      requires Valid()
      modifies this
      ensures Valid()
      ensures changed <==> Store.FindById(old(contents), id).Some?
      ensures contents == Store.AfterDelete(old(contents), id)
      ensures writes == if changed then old(writes) + 1 else old(writes)
    {
      var next := Store.AfterDelete(contents, id);
      Store.DeleteChanged(contents, id);
      changed := |next| != |contents|;
      assert forall i :: 0 <= i < |next| ==> next[i] in contents;
      if changed {
        contents := next;
        writes := writes + 1;
      }
    }
  }

  /**
   * `ensureDefaultAdminUser(username, passwordHash)`: adds the user, under the
   * id `generateId()` produced, only when no user has that username.
   */
  method EnsureDefaultAdminUser(users: JsonFile, id: string, username: string, passwordHash: string)
    requires users.Valid()
    modifies users
    ensures users.Valid()
    ensures users.contents == Store.AfterSeed(old(users.contents), id, username, passwordHash)
    ensures users.writes == if Store.FindByUsername(old(users.contents), username).Some? then old(users.writes) else old(users.writes) + 1
  {
    if Store.FirstIndex(users.contents, "username", Str(username)) == -1 {
      var created: Record := map["id" := Str(id), "username" := Str(username), "passwordHash" := Str(passwordHash)];
      users.contents := users.contents + [created];
      users.writes := users.writes + 1;
    }
  }
}
