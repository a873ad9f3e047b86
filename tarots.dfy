/**
 * admin/src/routes/tarots.ts. The create and update inputs are object
 * literals whose text fields default to `''`; the update's icon is set in
 * branches (clear flag first, then upload). The list and edit pages also
 * rewrite icon paths of the legacy form `/uploads/tarot-...` and store the
 * corrected path. The tarot repository is taken to follow the same
 * whole-file pattern as the others.
 */
module Tarots {
  import opened Base
  import opened Json
  import opened Text
  import opened Forms
  import Store
  import Models
  import Repository
  import Upload

  /** The fields that fall back to `''`. */
  const TextFields: set<string> := {"equipmentSkill", "additionalSkill", "description"}

  const LegacyPrefix: string := "/uploads/tarot-"

  // ---------------------------------------------------------------------------
  // The legacy icon correction

  /**
   * `if (tarot.icon && tarot.icon.includes('/uploads/tarot-'))` and the
   * corrected icon `tarot.icon.replace('/uploads/tarot-', '/uploads/')`. On an
   * array `includes` tests membership and `replace` then throws; on any other
   * truthy non-string `includes` itself throws.
   */
  function LegacyFix(icon: Value): Choice
  {
    match icon
    case Str(s) => if Contains(s, LegacyPrefix) then Put(Str(ReplaceFirst(s, LegacyPrefix, "/uploads/"))) else Leave
    case Arr(xs) => if Str(LegacyPrefix) in xs then Throw else Leave
    case _ => if Truthy(icon) then Throw else Leave
  }

  /** The correction drops `tarot-` from the first legacy prefix, and only there. */
  lemma LegacyFixShape(s: string)
    requires Contains(s, LegacyPrefix)
    ensures var i := IndexOf(s, LegacyPrefix);
      && LegacyFix(Str(s)) == Put(Str(s[..i] + "/uploads/" + s[i + |LegacyPrefix|..]))
      && |LegacyFix(Str(s)).v.s| == |s| - 6
  {
  }

  /** A doubled legacy prefix is only half corrected, so the next listing corrects it again. */
  lemma LegacyFixNotIdempotent()
    ensures LegacyFix(Str("/uploads/tarot-tarot-a.png")) == Put(Str("/uploads/tarot-a.png"))
    ensures LegacyFix(Str("/uploads/tarot-a.png")) == Put(Str("/uploads/a.png"))
  {
    var s := "/uploads/tarot-tarot-a.png";
    assert OccursAt(s, LegacyPrefix, 0);
    assert IndexOf(s, LegacyPrefix) == 0;
    assert s[15..] == "tarot-a.png";
    assert ReplaceFirst(s, LegacyPrefix, "/uploads/") == "/uploads/tarot-a.png";
    var t := "/uploads/tarot-a.png";
    assert OccursAt(t, LegacyPrefix, 0);
    assert IndexOf(t, LegacyPrefix) == 0;
    assert t[15..] == "a.png";
    assert ReplaceFirst(t, LegacyPrefix, "/uploads/") == "/uploads/a.png";
  }

  /** Every listed tarot carries a string id, as the repository's `create` gives it. */
  predicate StringIds(ts: seq<Record>)
  {
    forall i :: 0 <= i < |ts| ==> Get(ts[i], "id").Str?
  }

  /**
   * The file after the `forEach` has visited `ts` in order, each correction
   * stored with `update(tarot.id, { icon })`; a throw stops the loop and keeps
   * what was stored before it.
   */
  function FixFile(contents: seq<Record>, ts: seq<Record>): seq<Record>
    requires StringIds(ts)
    decreases |ts|
  {
    if ts == [] then contents
    else match LegacyFix(Get(ts[0], "icon"))
      case Throw => contents
      case Leave => FixFile(contents, ts[1..])
      case Put(v) => FixFile(Store.AfterUpdate(contents, Get(ts[0], "id").s, map["icon" := v]), ts[1..])
  }

  predicate FixThrows(ts: seq<Record>)
  {
    exists i :: 0 <= i < |ts| && LegacyFix(Get(ts[i], "icon")).Throw?
  }

  /** The tarot as the page shows it after the loop body. */
  function Shown(t: Record): Record
  {
    match LegacyFix(Get(t, "icon"))
    case Put(v) => t["icon" := v]
    case _ => t
  }

  /** The correction keeps the number of tarots in the file. */
  lemma {:induction false} FixFileLength(contents: seq<Record>, ts: seq<Record>)
    requires StringIds(ts)
    ensures |FixFile(contents, ts)| == |contents|
    decreases |ts|
  {
    if ts != [] {
      match LegacyFix(Get(ts[0], "icon"))
      case Throw =>
      case Leave => FixFileLength(contents, ts[1..]);
      case Put(v) => FixFileLength(Store.AfterUpdate(contents, Get(ts[0], "id").s, map["icon" := v]), ts[1..]);
    }
  }

  /** When no listed icon has the legacy form, the listing writes nothing. */
  lemma {:induction false} FixFileNoLegacy(contents: seq<Record>, ts: seq<Record>)
    requires StringIds(ts)
    requires forall i :: 0 <= i < |ts| ==> LegacyFix(Get(ts[i], "icon")).Leave?
    ensures FixFile(contents, ts) == contents
  {
    if ts != [] {
      assert LegacyFix(Get(ts[0], "icon")).Leave?;
      FixFileNoLegacy(contents, ts[1..]);
    }
  }

  /** One correction stores the corrected icon on the first tarot with that id and leaves the others. */
  lemma FixStoresIcon(contents: seq<Record>, id: string, icon: string, j: int)
    requires 0 <= j < |contents|
    ensures var next := Store.AfterUpdate(contents, id, map["icon" := Str(icon)]);
      && (j == Store.FirstIndex(contents, "id", Str(id)) ==> next[j]["icon"] == Str(icon))
      && (j != Store.FirstIndex(contents, "id", Str(id)) ==> next[j] == contents[j])
  {
    Store.UpdateFrame(contents, id, map["icon" := Str(icon)], j);
    if j == Store.FirstIndex(contents, "id", Str(id)) {
      PersistAt(Store.Merge(contents[j], map["icon" := Str(icon)], id), "icon");
    }
  }

  /** The loop body on the `i`-th listed tarot, as one step of `FixFile`. */
  lemma FixFileStep(contents: seq<Record>, ts: seq<Record>, i: int)
    requires StringIds(ts) && 0 <= i < |ts|
    ensures StringIds(ts[i..]) && StringIds(ts[i + 1..])
    ensures LegacyFix(Get(ts[i], "icon")).Throw? ==> FixFile(contents, ts[i..]) == contents
    ensures LegacyFix(Get(ts[i], "icon")).Leave? ==> FixFile(contents, ts[i..]) == FixFile(contents, ts[i + 1..])
    ensures LegacyFix(Get(ts[i], "icon")).Put? ==>
      var next := Store.AfterUpdate(contents, Get(ts[i], "id").s, map["icon" := LegacyFix(Get(ts[i], "icon")).v]);
      FixFile(contents, ts[i..]) == FixFile(next, ts[i + 1..])
  {
    assert ts[i..][0] == ts[i] && ts[i..][1..] == ts[i + 1..];
  }

  /** The loop body of the listing on the `i`-th tarot: correct its icon and store the correction. */
  method FixAt(repo: Repository.JsonFile, tarots: seq<Record>, i: int) returns (fix: Choice, t: Record)
    requires repo.Valid()
    requires StringIds(tarots) && 0 <= i < |tarots|
    modifies repo
    ensures repo.Valid()
    ensures StringIds(tarots[i + 1..])
    ensures fix == LegacyFix(Get(tarots[i], "icon"))
    ensures fix.Throw? ==> repo.contents == old(repo.contents) == FixFile(old(repo.contents), tarots[i..])
    ensures !fix.Throw? ==> t == Shown(tarots[i]) && FixFile(repo.contents, tarots[i + 1..]) == FixFile(old(repo.contents), tarots[i..])
  {
    t := tarots[i];
    FixFileStep(repo.contents, tarots, i);
    fix := LegacyFix(Get(t, "icon"));
    if fix.Put? {
      t := t["icon" := fix.v];
      var _ := repo.Update(Get(tarots[i], "id").s, map["icon" := fix.v]);
    }
  }

  /**
   * GET `/`: the listing with legacy icons corrected, each correction also
   * stored; 500 when an icon makes the loop throw.
   */
  method List(repo: Repository.JsonFile) returns (resp: Response, shown: seq<Record>)
    requires repo.Valid()
    requires StringIds(repo.contents)
    modifies repo
    ensures repo.Valid()
    ensures repo.contents == FixFile(old(repo.contents), old(repo.contents))
    ensures resp == if FixThrows(old(repo.contents)) then ServerError else Page
    ensures resp == Page ==> |shown| == |old(repo.contents)| && forall i {:trigger shown[i]} :: 0 <= i < |shown| ==> shown[i] == Shown(old(repo.contents)[i])
  {
    var tarots := repo.contents;
    shown := [];
    for i := 0 to |tarots|
      invariant repo.Valid()
      invariant StringIds(tarots[i..])
      invariant FixFile(repo.contents, tarots[i..]) == FixFile(tarots, tarots)
      invariant forall j {:trigger LegacyFix(Get(tarots[j], "icon"))} :: 0 <= j < i ==> !LegacyFix(Get(tarots[j], "icon")).Throw?
      invariant |shown| == i && forall j {:trigger shown[j]} :: 0 <= j < i ==> shown[j] == Shown(tarots[j])
    {
      var fix, t := FixAt(repo, tarots, i);
      if fix.Throw? {
        assert LegacyFix(Get(tarots[i], "icon")).Throw?;
        return ServerError, shown;
      }
      shown := shown + [t];
    }
    assert tarots[|tarots|..] == [];
    resp := Page;
  }

  /** GET `/:id/edit`: 404 for an unknown id; otherwise the shown tarot's legacy icon is corrected and stored. */
  method Edit(repo: Repository.JsonFile, id: string) returns (resp: Response, shown: Option<Record>)
    requires repo.Valid()
    modifies repo
    ensures repo.Valid()
    ensures var found := Store.FindById(old(repo.contents), id);
      && (found.None? ==> resp == NotFound && repo.contents == old(repo.contents))
      && (found.Some? && LegacyFix(Get(found.value, "icon")).Throw? ==> resp == ServerError && repo.contents == old(repo.contents))
      && (found.Some? && LegacyFix(Get(found.value, "icon")).Leave? ==> resp == Page && repo.contents == old(repo.contents) && shown == found)
      && (found.Some? && LegacyFix(Get(found.value, "icon")).Put? ==>
            && resp == Page && shown == Some(Shown(found.value))
            && repo.contents == Store.AfterUpdate(old(repo.contents), id, map["icon" := LegacyFix(Get(found.value, "icon")).v]))
  {
    var tarot := repo.FindById(id);
    if tarot.None? {
      return NotFound, None;
    }
    var t := tarot.value;
    var fix := LegacyFix(Get(t, "icon"));
    if fix.Throw? {
      return ServerError, None;
    }
    if fix.Put? {
      t := t["icon" := fix.v];
      var _ := repo.Update(id, map["icon" := fix.v]);
    }
    resp, shown := Page, Some(t);
  }

  // ---------------------------------------------------------------------------
  // Create and update inputs

  /** The properties both inputs share: the text fields fall back to `''`, the methods to a list. */
  function Common(f: Form): (input: Record)
    ensures input.Keys == {"name", "rarityId", "acquisitionMethods"} + TextFields
    ensures forall k :: k in TextFields ==> input[k] == OrEmpty(FieldValue(f, k))
    ensures input["acquisitionMethods"] == ToList(FieldValue(f, "acquisitionMethods"))
  {
    (map k | k in TextFields :: OrEmpty(FieldValue(f, k)))
      ["name" := FieldValue(f, "name")]
      ["rarityId" := FieldValue(f, "rarityId")]
      ["acquisitionMethods" := ToList(FieldValue(f, "acquisitionMethods"))]
  }

  /** The create input: the icon is the uploaded file's public path, or `''` without a file. */
  function CreateInput(f: Form, file: Option<UploadedFile>): (input: Record)
    ensures input.Keys == {"name", "rarityId", "icon", "acquisitionMethods"} + TextFields
    ensures input["icon"] == Str(if file.Some? then Upload.PublicPath(file.value.filename) else "")
  {
    Common(f)["icon" := Str(if file.Some? then "/uploads/" + file.value.filename else "")]
  }

  /** What the create interface declares for the properties the handlers set. */
  lemma CreateSchemaFields()
    ensures forall k :: k in TextFields ==> k in Models.TarotCreateSchema && Models.TarotCreateSchema[k] == Models.Opt(Models.StrShape)
    ensures forall k :: k in Models.TarotCreateSchema && !Models.TarotCreateSchema[k].optional ==> k == "name" || k == "rarityId" || k == "acquisitionMethods"
    ensures "name" in Models.TarotCreateSchema && Models.TarotCreateSchema["name"] == Models.Req(Models.StrShape)
    ensures "rarityId" in Models.TarotCreateSchema && Models.TarotCreateSchema["rarityId"] == Models.Req(Models.StrShape)
    ensures "icon" in Models.TarotCreateSchema && Models.TarotCreateSchema["icon"] == Models.Opt(Models.StrShape)
    ensures "acquisitionMethods" in Models.TarotCreateSchema
    ensures Models.TarotCreateSchema["acquisitionMethods"] == Models.Req(Models.ListOf(Models.OneOf(Models.TarotAcquisitionMethodLabels)))
  {
  }

  /** A form with one name, one rarity, single text fields and known acquisition methods gives a well-typed create input. */
  lemma CreateInputConforms(f: Form, file: Option<UploadedFile>)
    requires "name" in f && f["name"].One? && "rarityId" in f && f["rarityId"].One?
    requires forall k :: k in TextFields && k in f ==> f[k].One?
    requires Models.Fits(ToList(FieldValue(f, "acquisitionMethods")), Models.ListOf(Models.OneOf(Models.TarotAcquisitionMethodLabels)))
    ensures Models.Conforms(CreateInput(f, file), Models.TarotCreateSchema)
  {
    CreateInputValues(f, file);
    RecordConforms(CreateInput(f, file));
  }

  /** The create input's values for a form with one name, one rarity and single text fields. */
  lemma CreateInputValues(f: Form, file: Option<UploadedFile>)
    requires "name" in f && f["name"].One? && "rarityId" in f && f["rarityId"].One?
    requires forall k :: k in TextFields && k in f ==> f[k].One?
    ensures var input := CreateInput(f, file);
      && input["name"].Str? && input["rarityId"].Str? && input["icon"].Str?
      && (forall k :: k in TextFields ==> input[k].Str?)
      && input["acquisitionMethods"] == ToList(FieldValue(f, "acquisitionMethods"))
  {
    var input := CreateInput(f, file);
    forall k | k in TextFields ensures input[k].Str? {
      assert input[k] == OrEmpty(FieldValue(f, k));
    }
  }

  /** A record of the create input's keys with string fields and known acquisition methods is a create input. */
  lemma RecordConforms(r: Record)
    requires r.Keys == {"name", "rarityId", "icon", "acquisitionMethods"} + TextFields
    requires r["name"].Str? && r["rarityId"].Str? && r["icon"].Str? && forall k :: k in TextFields ==> r[k].Str?
    requires Models.Fits(r["acquisitionMethods"], Models.ListOf(Models.OneOf(Models.TarotAcquisitionMethodLabels)))
    ensures Models.Conforms(r, Models.TarotCreateSchema)
  {
    var sc := Models.TarotCreateSchema;
    CreateSchemaFields();
    forall k | k in r
      ensures k in sc && r[k] != Undefined && r[k] != Null && Models.Fits(r[k], sc[k].shape)
    {
      if k in TextFields {
        assert r[k].Str? && sc[k].shape == Models.StrShape;
      }
    }
  }

  /** The update's icon: `''` on the clear flag, even with an upload; the upload's path; otherwise left out. */
  function IconChoice(f: Form, file: Option<UploadedFile>): Choice
  {
    if FieldIs(f, "iconClear", "true") then Put(Str(""))
    else if file.Some? then Put(Str("/uploads/" + file.value.filename))
    else Leave
  }

  function UpdateInput(f: Form, file: Option<UploadedFile>): Record
  {
    var c := IconChoice(f, file);
    if c.Put? then Common(f)["icon" := c.v] else Common(f)
  }

  method BuildUpdateInput(f: Form, file: Option<UploadedFile>) returns (input: Record)
    ensures input == UpdateInput(f, file)
  {
    input := Common(f);
    if FieldValue(f, "iconClear") == Str("true") {
      input := input["icon" := Str("")];
    } else if file.Some? {
      input := input["icon" := Str("/uploads/" + file.value.filename)];
    }
  }

  /**
   * The stored icon is kept only when there is neither clear flag nor upload;
   * the clear flag wins over an upload.
   */
  lemma UpdateIcon(stored: Record, f: Form, file: Option<UploadedFile>, id: string)
    ensures !FieldIs(f, "iconClear", "true") && file.None? ==>
      Get(Store.Merge(stored, UpdateInput(f, file), id), "icon") == Get(stored, "icon")
    ensures FieldIs(f, "iconClear", "true") ==> Store.Merge(stored, UpdateInput(f, file), id)["icon"] == Str("")
    ensures !FieldIs(f, "iconClear", "true") && file.Some? ==>
      Store.Merge(stored, UpdateInput(f, file), id)["icon"] == Str(Upload.PublicPath(file.value.filename))
  {
    CommonHasNoIcon(f);
    if IconChoice(f, file).Put? {
      Store.MergeAt(stored, UpdateInput(f, file), id, "icon");
    } else {
      Store.MergeKeeps(stored, UpdateInput(f, file), id, "icon");
    }
  }

  lemma CommonHasNoIcon(f: Form)
    ensures "icon" !in Common(f)
  {
    assert "icon" !in TextFields;
  }

  /** A text field left out of the body is `''` in the update input. */
  lemma TextDefault(f: Form, file: Option<UploadedFile>, k: string)
    requires k in TextFields && k !in f
    ensures k in UpdateInput(f, file) && UpdateInput(f, file)[k] == Str("")
  {
    assert Common(f)[k] == Str("");
  }

  /** Unlike the icon, a text field left out of the body clears the stored text. */
  lemma MissingTextClears(stored: Record, f: Form, file: Option<UploadedFile>, id: string, k: string)
    requires k in TextFields && k !in f
    ensures k in Persist(Store.Merge(stored, UpdateInput(f, file), id))
    ensures Persist(Store.Merge(stored, UpdateInput(f, file), id))[k] == Str("")
  {
    TextDefault(f, file, k);
    Store.PersistMergeAt(stored, UpdateInput(f, file), id, k);
  }

  method Create(repo: Repository.JsonFile, id: string, f: Form, file: Option<UploadedFile>) returns (resp: Response)
    requires repo.Valid()
    modifies repo
    ensures repo.Valid()
    ensures repo.contents == Store.AfterCreate(old(repo.contents), id, CreateInput(f, file))
    ensures resp == Redirect("/tarots")
  {
    var _ := repo.Create(id, CreateInput(f, file));
    resp := Redirect("/tarots");
  }

  /**
   * Removing the old icon file joins the stored icon into a path, which
   * throws when that icon is truthy and not a string. It happens only on
   * the clear flag or an upload, and only for a tarot that exists.
   */
  predicate OldIconThrows(existing: Option<Record>, f: Form, file: Option<UploadedFile>)
  {
    && IconChoice(f, file).Put?
    && existing.Some?
    && Truthy(Get(existing.value, "icon"))
    && !Get(existing.value, "icon").Str?
  }

  /** PUT `/:id`: 500 and no change when removing the old icon throws, else the update, 404 when it finds no tarot. */
  method Update(repo: Repository.JsonFile, id: string, f: Form, file: Option<UploadedFile>) returns (resp: Response)
    requires repo.Valid()
    modifies repo
    ensures repo.Valid()
    ensures var existing := Store.FindById(old(repo.contents), id);
      && (OldIconThrows(existing, f, file) ==> resp == ServerError && repo.contents == old(repo.contents))
      && (!OldIconThrows(existing, f, file) ==>
            && repo.contents == Store.AfterUpdate(old(repo.contents), id, UpdateInput(f, file))
            && resp == if existing.Some? then Redirect("/tarots") else NotFound)
  {
    var input := BuildUpdateInput(f, file);
    if IconChoice(f, file).Put? {
      var current := repo.FindById(id);
      if current.Some? && Truthy(Get(current.value, "icon")) && !Get(current.value, "icon").Str? {
        return ServerError;
      }
    }
    var updated := repo.Update(id, input);
    if updated.None? {
      return NotFound;
    }
    resp := Redirect("/tarots");
  }

  /** DELETE `/:id`: 404 before deleting when no tarot has the id, 500 and no change when removing its icon throws. */
  method Delete(repo: Repository.JsonFile, id: string) returns (resp: Response)
    requires repo.Valid()
    modifies repo
    ensures repo.Valid()
    ensures var existing := Store.FindById(old(repo.contents), id);
      && (existing.None? ==> resp == NotFound && repo.contents == old(repo.contents))
      && (existing.Some? ==>
            var icon := Get(existing.value, "icon");
            if Truthy(icon) && !icon.Str? then
              resp == ServerError && repo.contents == old(repo.contents)
            else
              resp == Redirect("/tarots") && repo.contents == Store.AfterDelete(old(repo.contents), id))
  {
    var tarot := repo.FindById(id);
    if tarot.None? {
      return NotFound;
    }
    var icon := Get(tarot.value, "icon");
    if Truthy(icon) && !icon.Str? {
      return ServerError;
    }
    var _ := repo.Delete(id);
    resp := Redirect("/tarots");
  }
}
