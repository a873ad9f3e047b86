/**
 * The values the repository and the route handlers manipulate.
 *
 * A record is a JavaScript object: a map from property names to values. The
 * handlers build objects in memory that may hold `undefined` (a form field the
 * request did not carry) or `NaN` (what `parseInt` gives for a non-numeric
 * string); the repository writes every collection with `JSON.stringify` and
 * reads it back with `JSON.parse`, which drops `undefined` properties and turns
 * `NaN` into `null`. `Persist` is that round trip.
 */
module Json {

  datatype Value =
    | Undefined
    | Null
    | Bool(b: bool)
    | Num(n: int)
    | NaN
    | Str(s: string)
    | Arr(items: seq<Value>)
    | Obj(fields: map<string, Value>)

  type Record = map<string, Value>

  /** Property access `r.k`: a missing property reads as `undefined`. */
  function Get(r: Record, k: string): Value
  {
    if k in r then r[k] else Undefined
  }

  /** JavaScript truthiness. */
  predicate Truthy(v: Value)
  {
    match v
    case Undefined => false
    case Null => false
    case NaN => false
    case Bool(b) => b
    case Num(n) => n != 0
    case Str(s) => s != ""
    case Arr(_) => true
    case Obj(_) => true
  }

  /** A value `JSON.parse` can produce: no `undefined` and no `NaN` anywhere. */
  predicate IsJson(v: Value)
  {
    match v
    case Undefined => false
    case NaN => false
    case Arr(xs) => forall i :: 0 <= i < |xs| ==> IsJson(xs[i])
    case Obj(m) => forall k :: k in m ==> IsJson(m[k])
    case _ => true
  }

  predicate IsJsonRecord(r: Record)
  {
    forall k :: k in r ==> IsJson(r[k])
  }

  /**
   * `JSON.parse(JSON.stringify(v))` for a value that sits in an array slot or
   * under a property that is kept: `NaN` and `undefined` array elements become
   * `null`, `undefined` properties of objects disappear.
   */
  function Jsonify(v: Value): (r: Value)
    ensures IsJson(r)
  {
    match v
    case Undefined => Null
    case NaN => Null
    case Arr(xs) => Arr(seq(|xs|, i requires 0 <= i < |xs| => Jsonify(xs[i])))
    case Obj(m) => Obj(map k | k in m && m[k] != Undefined :: Jsonify(m[k]))
    case _ => v
  }

  /** What the file holds after `writeJson` of a record and what `readJson` gives back. */
  function Persist(r: Record): (p: Record)
    ensures IsJsonRecord(p)
    ensures p.Keys == set k | k in r && r[k] != Undefined
  {
    map k | k in r && r[k] != Undefined :: Jsonify(r[k])
  }

  /** A JSON value survives the write/read round trip unchanged. */
  lemma {:induction false} JsonifyKeepsJson(v: Value)
    requires IsJson(v)
    ensures Jsonify(v) == v
  {
    match v
    case Arr(xs) =>
      forall i | 0 <= i < |xs| ensures Jsonify(xs[i]) == xs[i] {
        JsonifyKeepsJson(xs[i]);
      }
    case Obj(m) =>
      forall k | k in m ensures Jsonify(m[k]) == m[k] {
        JsonifyKeepsJson(m[k]);
      }
      assert forall k :: k in m ==> m[k] != Undefined;
    case _ =>
  }

  /** A record read from a file is written back exactly as it was. */
  lemma PersistKeepsJson(r: Record)
    requires IsJsonRecord(r)
    ensures Persist(r) == r
  {
    forall k | k in r ensures r[k] != Undefined && Jsonify(r[k]) == r[k] {
      JsonifyKeepsJson(r[k]);
    }
  }

  /** Writing twice is writing once: the round trip is idempotent. */
  lemma PersistIdempotent(r: Record)
    ensures Persist(Persist(r)) == Persist(r)
  {
    PersistKeepsJson(Persist(r));
  }

  /** A property that held a defined value keeps its key through the round trip. */
  lemma PersistAt(r: Record, k: string)
    ensures k in Persist(r) <==> k in r && r[k] != Undefined
    ensures k in Persist(r) && IsJson(r[k]) ==> Persist(r)[k] == r[k]
  {
    if k in r && r[k] != Undefined && IsJson(r[k]) {
      JsonifyKeepsJson(r[k]);
    }
  }
}
