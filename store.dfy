/**
 * The collection store shared by every repository: one JSON array per entity
 * kind, read whole, changed, and written back whole. These are the functions
 * that say what each repository operation does to the array; the class
 * `Repository.JsonFile` performs the operations and is proved against them.
 */
module Store {
  import opened Base
  import opened Json
  import opened Text

  // ---------------------------------------------------------------------------
  // find, findIndex, filter

  /** `r[key] === value`. */
  predicate Matches(r: Record, key: string, value: Value)
  {
    Get(r, key) == value
  }

  /** `all.findIndex(r => r[key] === value)`: the first matching position, or -1. */
  function FirstIndex(all: seq<Record>, key: string, value: Value): (i: int)
    ensures -1 <= i < |all|
    ensures i == -1 <==> forall j :: 0 <= j < |all| ==> !Matches(all[j], key, value)
    ensures i >= 0 ==> Matches(all[i], key, value) && forall j :: 0 <= j < i ==> !Matches(all[j], key, value)
  {
    if |all| == 0 then -1
    else if Matches(all[0], key, value) then 0
    else
      var k := FirstIndex(all[1..], key, value);
      assert forall j :: 1 <= j < |all| ==> all[j] == all[1..][j - 1];
      if k == -1 then -1 else k + 1
  }

  /** `all.find(r => r[key] === value)`. */
  function Find(all: seq<Record>, key: string, value: Value): (r: Option<Record>)
    ensures r.None? <==> forall j :: 0 <= j < |all| ==> !Matches(all[j], key, value)
    ensures r.Some? ==> r.value in all && Matches(r.value, key, value)
  {
    var i := FirstIndex(all, key, value);
    if i == -1 then None else Some(all[i])
  }

  /** `c.id === id`. */
  predicate HasId(r: Record, id: string)
  {
    Matches(r, "id", Str(id))
  }

  /** `findById`: the first record carrying the id. */
  function FindById(all: seq<Record>, id: string): Option<Record>
  {
    Find(all, "id", Str(id))
  }

  /** `AdminUserRepository.findByUsername`: the first user with that username. */
  function FindByUsername(all: seq<Record>, username: string): Option<Record>
  {
    Find(all, "username", Str(username))
  }

  /** `xs.filter(p)`: the elements satisfying `p`, in their order. */
  function Filter(xs: seq<Record>, p: Record -> bool): (r: seq<Record>)
    ensures |r| <= |xs|
    ensures forall x :: x in r <==> x in xs && p(x)
  {
    if |xs| == 0 then []
    else if p(xs[0]) then [xs[0]] + Filter(xs[1..], p)
    else Filter(xs[1..], p)
  }

  /** The filter drops nothing exactly when every element satisfies the predicate. */
  lemma {:induction false} FilterKeepsLength(xs: seq<Record>, p: Record -> bool)
    ensures |Filter(xs, p)| == |xs| <==> forall i :: 0 <= i < |xs| ==> p(xs[i])
    ensures (forall i :: 0 <= i < |xs| ==> p(xs[i])) ==> Filter(xs, p) == xs
  {
    if |xs| > 0 {
      FilterKeepsLength(xs[1..], p);
      assert forall i :: 1 <= i < |xs| ==> xs[i] == xs[1..][i - 1];
      assert xs == [xs[0]] + xs[1..];
    }
  }

  /** Number of records with `r[key] === value`. */
  function Count(all: seq<Record>, key: string, value: Value): nat
  {
    if |all| == 0 then 0
    else (if Matches(all[0], key, value) then 1 else 0) + Count(all[1..], key, value)
  }

  lemma {:induction false} CountZeroIffAbsent(all: seq<Record>, key: string, value: Value)
    ensures Count(all, key, value) == 0 <==> FirstIndex(all, key, value) == -1
  {
    if |all| > 0 {
      CountZeroIffAbsent(all[1..], key, value);
    }
  }

  lemma {:induction false} CountAppend(all: seq<Record>, r: Record, key: string, value: Value)
    ensures Count(all + [r], key, value) == Count(all, key, value) + (if Matches(r, key, value) then 1 else 0)
  {
    if |all| > 0 {
      assert (all + [r])[1..] == all[1..] + [r];
      CountAppend(all[1..], r, key, value);
    }
  }

  /** Appending a record leaves an existing first match where it was, and otherwise the new record may be it. */
  lemma {:induction false} FirstIndexAppend(all: seq<Record>, r: Record, key: string, value: Value)
    ensures FirstIndex(all + [r], key, value) ==
      if FirstIndex(all, key, value) != -1 then FirstIndex(all, key, value)
      else if Matches(r, key, value) then |all|
      else -1
  {
    if |all| > 0 {
      assert (all + [r])[1..] == all[1..] + [r];
      FirstIndexAppend(all[1..], r, key, value);
    }
  }

  // ---------------------------------------------------------------------------
  // create

  /** `{ id: generateId(), ...input }`: a property `id` of the input would win over the fresh one. */
  function Created(id: string, input: Record): (r: Record)
    ensures r.Keys == input.Keys + {"id"}
    ensures forall k :: k in input ==> r[k] == input[k]
    ensures "id" !in input ==> r["id"] == Str(id)
  {
    map["id" := Str(id)] + input
  }

  /** A defined JSON property of the input is what the file keeps under that key after the create. */
  lemma PersistCreatedAt(id: string, input: Record, k: string)
    requires k in input && input[k] != Undefined && IsJson(input[k])
    ensures k in Persist(Created(id, input)) && Persist(Created(id, input))[k] == input[k]
  {
    PersistAt(Created(id, input), k);
  }

  /** The array after `create`: the persisted record appended at the end. */
  function AfterCreate(all: seq<Record>, id: string, input: Record): (next: seq<Record>)
    ensures |next| == |all| + 1 && next[..|all|] == all
    ensures next[|all|] == Persist(Created(id, input))
  {
    all + [Persist(Created(id, input))]
  }

  /** With a fresh id and no `id` in the input, the created record is found again by its id. */
  lemma CreateThenFind(all: seq<Record>, id: string, input: Record)
    requires FindById(all, id).None?
    requires "id" !in input
    ensures FindById(AfterCreate(all, id, input), id) == Some(Persist(Created(id, input)))
  {
    var r := Persist(Created(id, input));
    PersistAt(Created(id, input), "id");
    FirstIndexAppend(all, r, "id", Str(id));
  }

  // ---------------------------------------------------------------------------
  // update

  /** `{ ...all[idx], ...input, id }`. */
  function Merge(stored: Record, input: Record, id: string): (r: Record)
    ensures r.Keys == stored.Keys + input.Keys + {"id"}
    ensures r["id"] == Str(id)
    ensures forall k :: k in r && k != "id" ==> r[k] == if k in input then input[k] else stored[k]
  {
    stored + input + map["id" := Str(id)]
  }

  /** An empty input gives back the stored record. */
  lemma MergeEmpty(stored: Record, id: string)
    requires HasId(stored, id)
    ensures Merge(stored, map[], id) == stored
  {
  }

  /** Applying the same input twice is applying it once. */
  lemma MergeTwice(stored: Record, input: Record, id: string)
    ensures Merge(Merge(stored, input, id), input, id) == Merge(stored, input, id)
  {
  }

  /** The array after `update(id, input)`; unchanged when no record has the id. */
  function AfterUpdate(all: seq<Record>, id: string, input: Record): (next: seq<Record>)
    ensures |next| == |all|
    ensures FirstIndex(all, "id", Str(id)) == -1 ==> next == all
    ensures var i := FirstIndex(all, "id", Str(id));
      i != -1 ==> next == all[i := Persist(Merge(all[i], input, id))]
  {
    var i := FirstIndex(all, "id", Str(id));
    if i == -1 then all else all[i := Persist(Merge(all[i], input, id))]
  }

  /** Only the first record with the id changes; every other position keeps its record, and the id stays. */
  lemma UpdateFrame(all: seq<Record>, id: string, input: Record, j: int)
    requires 0 <= j < |all|
    ensures j != FirstIndex(all, "id", Str(id)) ==> AfterUpdate(all, id, input)[j] == all[j]
    ensures j == FirstIndex(all, "id", Str(id)) ==> HasId(AfterUpdate(all, id, input)[j], id)
  {
    var m := Merge(all[j], input, id);
    PersistAt(m, "id");
  }

  /** Replacing the first match by another match keeps it the first match. */
  lemma {:induction false} FirstIndexReplace(all: seq<Record>, i: int, r: Record, key: string, value: Value)
    requires 0 <= i < |all| && FirstIndex(all, key, value) == i
    requires Matches(r, key, value)
    ensures FirstIndex(all[i := r], key, value) == i
  {
    if i > 0 {
      assert all[i := r][1..] == all[1..][i - 1 := r];
      FirstIndexReplace(all[1..], i - 1, r, key, value);
    }
  }

  /** A property of the input is what the merge holds under that key. */
  lemma MergeAt(stored: Record, input: Record, id: string, k: string)
    requires k in input && k != "id"
    ensures k in Merge(stored, input, id) && Merge(stored, input, id)[k] == input[k]
  {
  }

  /** A key the input leaves out keeps its stored value through the merge. */
  lemma MergeKeeps(stored: Record, input: Record, id: string, k: string)
    requires k !in input && k != "id"
    ensures Get(Merge(stored, input, id), k) == Get(stored, k)
  {
  }

  /** A defined JSON property of the input is what the file keeps under that key after the merge. */
  lemma PersistMergeAt(stored: Record, input: Record, id: string, k: string)
    requires k in input && k != "id" && input[k] != Undefined && IsJson(input[k])
    ensures k in Persist(Merge(stored, input, id)) && Persist(Merge(stored, input, id))[k] == input[k]
  {
    PersistAt(Merge(stored, input, id), k);
  }

  /** Persisting after a merge with the same input a second time changes nothing. */
  lemma PersistMergeTwice(stored: Record, input: Record, id: string)
    ensures Persist(Merge(Persist(Merge(stored, input, id)), input, id)) == Persist(Merge(stored, input, id))
  {
    var m1 := Merge(stored, input, id);
    var once := Persist(m1);
    var m2 := Merge(once, input, id);
    var twice := Persist(m2);
    forall k | k in m2 && k != "id" && k !in input
      ensures k in once && m2[k] == once[k] && m2[k] != Undefined && Jsonify(m2[k]) == once[k]
    {
      JsonifyKeepsJson(once[k]);
    }
    forall k ensures k in twice <==> k in once {
      PersistAt(m1, k);
      PersistAt(m2, k);
    }
    forall k | k in twice ensures twice[k] == once[k] {
      if k == "id" || k in input {
        assert m2[k] == m1[k];
      }
    }
  }

  /** Repeating the same update gives the same array. */
  lemma UpdateTwice(all: seq<Record>, id: string, input: Record)
    ensures AfterUpdate(AfterUpdate(all, id, input), id, input) == AfterUpdate(all, id, input)
  {
    var i := FirstIndex(all, "id", Str(id));
    if i != -1 {
      var r := Persist(Merge(all[i], input, id));
      PersistAt(Merge(all[i], input, id), "id");
      FirstIndexReplace(all, i, r, "id", Str(id));
      PersistMergeTwice(all[i], input, id);
    }
  }

  /** An update with an empty input writes back the records as they were read. */
  lemma UpdateEmptyKeeps(all: seq<Record>, id: string)
    requires forall j :: 0 <= j < |all| ==> IsJsonRecord(all[j])
    ensures AfterUpdate(all, id, map[]) == all
  {
    var i := FirstIndex(all, "id", Str(id));
    if i != -1 {
      MergeEmpty(all[i], id);
      PersistKeepsJson(all[i]);
    }
  }

  // ---------------------------------------------------------------------------
  // delete

  /** `all.filter(c => c.id !== id)`. */
  function AfterDelete(all: seq<Record>, id: string): (next: seq<Record>)
    ensures forall r :: r in next <==> r in all && !HasId(r, id)
  {
    Filter(all, r => !HasId(r, id))
  }

  /** `delete` reports a change exactly when some record had the id; otherwise the array is kept. */
  lemma DeleteChanged(all: seq<Record>, id: string)
    ensures |AfterDelete(all, id)| != |all| <==> FindById(all, id).Some?
    ensures FindById(all, id).None? ==> AfterDelete(all, id) == all
    ensures FindById(AfterDelete(all, id), id).None?
  {
    FilterKeepsLength(all, r => !HasId(r, id));
  }

  // ---------------------------------------------------------------------------
  // ensureDefaultAdminUser

  /** The admin-user array after `ensureDefaultAdminUser(username, passwordHash)`. */
  function AfterSeed(all: seq<Record>, id: string, username: string, passwordHash: string): (next: seq<Record>)
    ensures FindByUsername(all, username).Some? ==> next == all
    ensures FindByUsername(all, username).None? ==>
      next == all + [map["id" := Str(id), "username" := Str(username), "passwordHash" := Str(passwordHash)]]
  {
    if FirstIndex(all, "username", Str(username)) != -1 then all
    else all + [map["id" := Str(id), "username" := Str(username), "passwordHash" := Str(passwordHash)]]
  }

  /** After seeding there is at least one user with the name, and a user is added only if there was none. */
  lemma SeedCount(all: seq<Record>, id: string, username: string, passwordHash: string)
    ensures var n := Count(all, "username", Str(username));
      Count(AfterSeed(all, id, username, passwordHash), "username", Str(username)) == if n == 0 then 1 else n
  {
    CountZeroIffAbsent(all, "username", Str(username));
    var u: Record := map["id" := Str(id), "username" := Str(username), "passwordHash" := Str(passwordHash)];
    CountAppend(all, u, "username", Str(username));
  }

  /** Seeding twice, whatever the second id and hash, is seeding once. */
  lemma SeedTwice(all: seq<Record>, id: string, id2: string, username: string, hash: string, hash2: string)
    ensures AfterSeed(AfterSeed(all, id, username, hash), id2, username, hash2) == AfterSeed(all, id, username, hash)
  {
    var u: Record := map["id" := Str(id), "username" := Str(username), "passwordHash" := Str(hash)];
    FirstIndexAppend(all, u, "username", Str(username));
  }

  // ---------------------------------------------------------------------------
  // CharacterRepository.search

  /**
   * The query object: each filter is a string, and an absent filter is the
   * empty string (both are falsy, so both switch the filter off).
   */
  datatype CharacterQuery = CharacterQuery(name: string, rarityId: string, roleId: string, weaponType: string, factionId: string)

  const EmptyQuery := CharacterQuery("", "", "", "", "")

  /**
   * The filter callback on one character: `Some(keep)`, or `None` when it
   * throws (`c.name.toLowerCase` on a non-string, `c.factionIds.includes` on
   * something that is neither an array nor a string). A check is only reached
   * when every earlier one passed.
   */
  function Examine(c: Record, q: CharacterQuery): Option<bool>
  {
    if q.name != "" && !Get(c, "name").Str? then None
    else if q.name != "" && !Contains(LowerCase(Get(c, "name").s), LowerCase(q.name)) then Some(false)
    else if q.rarityId != "" && Get(c, "rarityId") != Str(q.rarityId) then Some(false)
    else if q.roleId != "" && Get(c, "roleId") != Str(q.roleId) then Some(false)
    else if q.weaponType != "" && Get(c, "weaponType") != Str(q.weaponType) then Some(false)
    else if q.factionId != "" then
      match Get(c, "factionIds")
      case Arr(xs) => Some(Str(q.factionId) in xs)
      case Str(s) => Some(Contains(s, q.factionId))
      case _ => None
    else Some(true)
  }

  /** `search(query)`: the kept characters in order, or `None` when the callback throws on some character. */
  function Search(all: seq<Record>, q: CharacterQuery): Option<seq<Record>>
  {
    if |all| == 0 then Some([])
    else
      match Examine(all[0], q)
      case None => None
      case Some(keep) =>
        match Search(all[1..], q)
        case None => None
        case Some(rest) => Some(if keep then [all[0]] + rest else rest)
  }

  /** A character the search can examine without throwing: its name is a string and its factionIds an array. */
  predicate Searchable(c: Record)
  {
    Get(c, "name").Str? && Get(c, "factionIds").Arr?
  }

  /** The conjunction the search promises: each non-empty filter holds. */
  predicate Satisfies(c: Record, q: CharacterQuery)
    requires Searchable(c)
  {
    && (q.name == "" || Contains(LowerCase(Get(c, "name").s), LowerCase(q.name)))
    && (q.rarityId == "" || Get(c, "rarityId") == Str(q.rarityId))
    && (q.roleId == "" || Get(c, "roleId") == Str(q.roleId))
    && (q.weaponType == "" || Get(c, "weaponType") == Str(q.weaponType))
    && (q.factionId == "" || Str(q.factionId) in Get(c, "factionIds").items)
  }

  /** On well-formed characters the search is the filter by the conjunction of the filters. */
  lemma {:induction false} SearchIsFilter(all: seq<Record>, q: CharacterQuery)
    requires forall i :: 0 <= i < |all| ==> Searchable(all[i])
    ensures Search(all, q) == Some(Filter(all, c => Searchable(c) && Satisfies(c, q)))
  {
    if |all| > 0 {
      SearchIsFilter(all[1..], q);
    }
  }

  /** The empty query returns the whole list, in order, whatever the records hold. */
  lemma {:induction false} SearchEmptyQuery(all: seq<Record>)
    ensures Search(all, EmptyQuery) == Some(all)
  {
    if |all| > 0 {
      SearchEmptyQuery(all[1..]);
      assert all == [all[0]] + all[1..];
    }
  }
}
