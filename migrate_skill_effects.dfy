/**
 * admin/src/scripts/migrate-skill-effects.js: every stored skill effect whose
 * category is falsy gets the default category, in place; the file is written
 * back only when some effect changed. A missing or unreadable file reads as an
 * empty list.
 */
module MigrateSkillEffects {
  import opened Json
  import Models
  import Repository

  /** `その他`, the label of the default effect category. */
  const DefaultCategory: string := Models.SkillEffectCategoryLabel(Models.DefaultSkillEffectCategory)

  /** `!effect.category`. */
  predicate NeedsCategory(e: Record)
  {
    !Truthy(Get(e, "category"))
  }

  /** One effect after the loop body ran on it. */
  function Backfilled(e: Record): (r: Record)
    ensures !NeedsCategory(r)
    ensures !NeedsCategory(e) ==> r == e
    ensures NeedsCategory(e) ==> r["category"] == Str("その他")
    ensures r.Keys == e.Keys + {"category"}
    ensures forall k :: k in e && k != "category" ==> r[k] == e[k]
  {
    if NeedsCategory(e) then e["category" := Str(DefaultCategory)] else e
  }

  /** The whole list after the migration: same length and order, each effect backfilled. */
  function BackfillAll(es: seq<Record>): (r: seq<Record>)
    ensures |r| == |es|
    ensures forall i :: 0 <= i < |es| ==> r[i] == Backfilled(es[i])
  {
    seq(|es|, i requires 0 <= i < |es| => Backfilled(es[i]))
  }

  /** The `forEach` over the loaded array, setting `updated` when an effect changed. */
  method Backfill(effects: array<Record>) returns (updated: bool)
    modifies effects
    ensures effects[..] == BackfillAll(old(effects[..]))
    ensures updated <==> exists i :: 0 <= i < effects.Length && NeedsCategory(old(effects[i]))
  {
    updated := false;
    for i := 0 to effects.Length
      invariant forall j :: 0 <= j < i ==> effects[j] == Backfilled(old(effects[j]))
      invariant forall j :: i <= j < effects.Length ==> effects[j] == old(effects[j])
      invariant updated <==> exists j :: 0 <= j < i && NeedsCategory(old(effects[j]))
    {
      if !Truthy(Get(effects[i], "category")) {
        effects[i] := effects[i]["category" := Str(DefaultCategory)];
        updated := true;
      }
    }
  }

  /** A list in which no effect needs a category is left as it is. */
  lemma NothingToBackfill(es: seq<Record>)
    requires forall i :: 0 <= i < |es| ==> !NeedsCategory(es[i])
    ensures BackfillAll(es) == es
  {
    forall i | 0 <= i < |es| ensures BackfillAll(es)[i] == es[i] {
      assert !NeedsCategory(es[i]);
    }
  }

  /** After one run every effect has a category, so a second run changes nothing. */
  lemma BackfillIdempotent(es: seq<Record>)
    ensures forall i :: 0 <= i < |es| ==> !NeedsCategory(BackfillAll(es)[i])
    ensures BackfillAll(BackfillAll(es)) == BackfillAll(es)
  {
    NothingToBackfill(BackfillAll(es));
  }

  /** `migrateSkillEffects()` on the file: written back exactly when some effect had a falsy category. */
  method Run(file: Repository.JsonFile)
    requires file.Valid()
    modifies file
    ensures file.Valid()
    ensures file.contents == BackfillAll(old(file.contents))
    ensures file.writes == if exists i :: 0 <= i < |old(file.contents)| && NeedsCategory(old(file.contents)[i])
      then old(file.writes) + 1 else old(file.writes)
  {
    var loaded := file.contents;
    if |loaded| == 0 {
      return;
    }
    var effects := new Record[|loaded|](i requires 0 <= i < |loaded| => loaded[i]);
    assert effects[..] == loaded;
    var updated := Backfill(effects);
    if updated {
      file.contents := effects[..];
      file.writes := file.writes + 1;
    } else {
      NothingToBackfill(loaded);
    }
  }
}
