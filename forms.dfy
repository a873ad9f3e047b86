/**
 * What the route handlers receive and answer. A parsed form body maps each
 * field name to one string, or to several when the field was repeated (a
 * multi-select); a field that was not sent is absent. The conversions the
 * handlers apply to form values are defined once here: JavaScript's `parseInt`,
 * `x || null`, `x || ""`, and the list normalisation
 * `Array.isArray(x) ? x : (x ? [x] : [])`.
 */
module Forms {
  import opened Base
  import opened Json
  import opened Text
  import Store

  datatype FormValue = One(s: string) | Many(items: seq<string>)

  type Form = map<string, FormValue>

  /** A file multer stored: its generated file name and its path on disk. */
  datatype UploadedFile = UploadedFile(filename: string, path: string)

  /** The outcome of a handler: a rendered page, the redirect after success, or an error status. */
  datatype Response = Page | Redirect(location: string) | BadRequest | NotFound | ServerError

  /**
   * What a handler's picture ladder does to one property of the input: leave
   * it out, set it, or throw (calling a string method on a value that is an
   * array because the field was sent twice).
   */
  datatype Choice = Leave | Put(v: Value) | Throw

  /** `input.k = v` for the chosen value; `None` when the ladder throws. */
  function Apply(input: Record, k: string, c: Choice): (r: Option<Record>)
    ensures c.Throw? <==> r.None?
    ensures c.Leave? ==> r == Some(input)
    ensures c.Put? ==> r == Some(input[k := c.v])
  {
    match c
    case Leave => Some(input)
    case Put(v) => Some(input[k := v])
    case Throw => None
  }

  /** `req.file?.filename` is truthy. */
  predicate HasFile(file: Option<UploadedFile>)
  {
    file.Some? && file.value.filename != ""
  }

  /**
   * The four-way icon ladder of the personality- and EX-skill updates: the
   * uploaded file's bare name, `''` on the reset flag, the icon the form echoes
   * back when it is truthy and not `''`, else `''`. An icon is always chosen.
   */
  function IconLadder(f: Form, file: Option<UploadedFile>): (icon: Value)
    ensures icon.Str? || icon.Arr?
    ensures HasFile(file) ==> icon == Str(file.value.filename)
    ensures !HasFile(file) && FieldIs(f, "iconReset", "true") ==> icon == Str("")
    ensures !HasFile(file) && "currentIcon" !in f ==> icon == Str("")
  {
    var current := FieldValue(f, "currentIcon");
    if HasFile(file) then Str(file.value.filename)
    else if FieldIs(f, "iconReset", "true") then Str("")
    else if Truthy(current) && current != Str("") then current
    else Str("")
  }

  /** The echoed icon is kept only when there is neither an upload nor the reset flag. */
  lemma IconLadderEcho(f: Form, file: Option<UploadedFile>)
    requires "currentIcon" in f && f["currentIcon"].One? && f["currentIcon"].s != ""
    ensures IconLadder(f, file) == Str(f["currentIcon"].s) <==>
      (!HasFile(file) && !FieldIs(f, "iconReset", "true")) || (HasFile(file) && file.value.filename == f["currentIcon"].s)
  {
  }

  /** The `if`/`else if` assignments of `input.icon`. */
  method ChooseIcon(f: Form, file: Option<UploadedFile>) returns (icon: Value)
    ensures icon == IconLadder(f, file)
  {
    var current := FieldValue(f, "currentIcon");
    if file.Some? && file.value.filename != "" {
      icon := Str(file.value.filename);
    } else if FieldValue(f, "iconReset") == Str("true") {
      icon := Str("");
    } else if Truthy(current) && current != Str("") {
      icon := current;
    } else {
      icon := Str("");
    }
  }

  /**
   * The create input of the personality- and EX-skill routes: their object
   * literal, plus the uploaded file's bare name as `icon` only when a file came.
   */
  function WithUploadedIcon(literal: Record, file: Option<UploadedFile>): (input: Record)
    ensures HasFile(file) ==> "icon" in input && input["icon"] == Str(file.value.filename)
    ensures !HasFile(file) ==> input == literal
    ensures input - {"icon"} == literal - {"icon"}
  {
    if HasFile(file) then literal["icon" := Str(file.value.filename)] else literal
  }

  /** The update input of the same routes: their object literal with `icon` always set by the ladder. */
  function WithLadderIcon(literal: Record, f: Form, file: Option<UploadedFile>): Record
  {
    literal["icon" := IconLadder(f, file)]
  }

  /** The literal, then the ladder's `if`/`else if` assignments of `input.icon`. */
  method BuildWithLadderIcon(literal: Record, f: Form, file: Option<UploadedFile>) returns (input: Record)
    ensures input == WithLadderIcon(literal, f, file)
  {
    input := literal;
    var icon := ChooseIcon(f, file);
    input := input["icon" := icon];
  }

  function Strs(xs: seq<string>): (r: seq<Value>)
    ensures |r| == |xs| && forall i :: 0 <= i < |xs| ==> r[i] == Str(xs[i])
  {
    seq(|xs|, i requires 0 <= i < |xs| => Str(xs[i]))
  }

  /** `req.body[k]` as a JavaScript value. */
  function FieldValue(f: Form, k: string): (v: Value)
    ensures k !in f ==> v == Undefined
    ensures v == Undefined || v.Str? || v.Arr?
  {
    if k !in f then Undefined
    else match f[k]
      case One(s) => Str(s)
      case Many(xs) => Arr(Strs(xs))
  }

  /** `req.body[k] === s`. */
  predicate FieldIs(f: Form, k: string, s: string)
  {
    FieldValue(f, k) == Str(s)
  }

  /** `Array.isArray(x) ? x : (x ? [x] : [])`. */
  function ToList(v: Value): (r: Value)
    ensures r.Arr?
    ensures v.Arr? ==> r == v
    ensures !v.Arr? && Truthy(v) ==> r == Arr([v])
    ensures !Truthy(v) ==> r == Arr([])
  {
    if v.Arr? then v else if Truthy(v) then Arr([v]) else Arr([])
  }

  /** `Array.isArray(x) ? x : [x]`, for a field known to be present. */
  function Wrap(v: Value): (r: Value)
    ensures r.Arr?
    ensures v.Arr? ==> r == v
    ensures !v.Arr? ==> r == Arr([v])
  {
    if v.Arr? then v else Arr([v])
  }

  /** The list a form field normalises to holds exactly the submitted strings. */
  lemma FieldList(f: Form, k: string)
    ensures k !in f ==> ToList(FieldValue(f, k)) == Arr([])
    ensures k in f && f[k] == One("") ==> ToList(FieldValue(f, k)) == Arr([])
    ensures k in f && f[k].One? && f[k].s != "" ==> ToList(FieldValue(f, k)) == Arr([Str(f[k].s)])
    ensures k in f && f[k].Many? ==> ToList(FieldValue(f, k)) == Arr(Strs(f[k].items))
    ensures forall i :: 0 <= i < |ToList(FieldValue(f, k)).items| ==> ToList(FieldValue(f, k)).items[i].Str?
  {
  }

  /** A form field, and the list it normalises to, are JSON values when sent. */
  lemma FieldIsJson(f: Form, k: string)
    ensures k in f ==> IsJson(FieldValue(f, k))
    ensures IsJson(ToList(FieldValue(f, k)))
  {
    FieldList(f, k);
    var l := ToList(FieldValue(f, k));
    forall i | 0 <= i < |l.items| ensures IsJson(l.items[i]) {
      assert l.items[i].Str?;
    }
    if k in f && f[k].Many? {
      var v := FieldValue(f, k);
      forall i | 0 <= i < |v.items| ensures IsJson(v.items[i]) {
        assert v.items[i] == Str(f[k].items[i]);
      }
    }
  }

  /** `x || null`. */
  function OrNull(v: Value): (r: Value)
    ensures Truthy(v) ==> r == v
    ensures !Truthy(v) ==> r == Null
  {
    if Truthy(v) then v else Null
  }

  /** `x || ""`. */
  function OrEmpty(v: Value): (r: Value)
    ensures Truthy(v) ==> r == v
    ensures !Truthy(v) ==> r == Str("")
  {
    if Truthy(v) then v else Str("")
  }

  /**
   * `const input = { name }` followed by `if (k !== undefined) input.k = k || null`
   * for each of `fields`: the shape of the skill-effect, faction and role inputs.
   */
  function NamedInput(f: Form, fields: set<string>): (input: Record)
    requires "name" !in fields
    ensures input.Keys == {"name"} + (set k | k in fields && k in f)
    ensures input["name"] == FieldValue(f, "name")
    ensures forall k :: k in fields && k in f ==> input[k] == OrNull(FieldValue(f, k))
  {
    map k | k in {"name"} + fields && (k == "name" || k in f) ::
      if k == "name" then FieldValue(f, k) else OrNull(FieldValue(f, k))
  }

  /** `if (k !== undefined) input.k = k || null`. */
  method SetOrNull(input: Record, f: Form, k: string) returns (r: Record)
    ensures r == if k in f then input[k := OrNull(FieldValue(f, k))] else input
  {
    r := input;
    if k in f {
      r := r[k := OrNull(FieldValue(f, k))];
    }
  }

  /** One more `if (k !== undefined) input.k = k || null` step. */
  lemma NamedInputStep(f: Form, fields: set<string>, k: string)
    requires "name" !in fields && k != "name"
    ensures NamedInput(f, fields + {k}) ==
      if k in f then NamedInput(f, fields)[k := OrNull(FieldValue(f, k))] else NamedInput(f, fields)
  {
  }

  /**
   * Proof helper, not a property of the program: the builders that set a
   * record's fields one statement at a time track the fields done so far as
   * a ghost set grown by `+ {k}`, and need that set to equal the field-set
   * constant at the end. Stated over abstract strings, the set equality is
   * cheap; stated on the five or six literal names at each builder, the
   * solver compares every pair of string literals.
   */
  lemma FiveFieldsAdded(a: string, b: string, c: string, d: string, e: string)
    ensures {} + {a} + {b} + {c} + {d} + {e} == {a, b, c, d, e}
  {
  }

  /** Proof helper as above, for the six-field builders. */
  lemma SixFieldsAdded(a: string, b: string, c: string, d: string, e: string, g: string)
    ensures {} + {a} + {b} + {c} + {d} + {e} + {g} == {a, b, c, d, e, g}
  {
  }

  /**
   * Merged into a stored record, such an input keeps the stored value of a
   * field left out of the body, stores `null` for a field sent empty, and
   * always overwrites the name (dropping it when the body had none).
   */
  lemma NamedInputMerge(stored: Record, f: Form, fields: set<string>, id: string, k: string)
    requires "name" !in fields && k in fields && k != "id"
    ensures k !in f ==> Get(Store.Merge(stored, NamedInput(f, fields), id), k) == Get(stored, k)
    ensures k in f && f[k] == One("") ==> Persist(Store.Merge(stored, NamedInput(f, fields), id))[k] == Null
    ensures "name" !in f ==> "name" !in Persist(Store.Merge(stored, NamedInput(f, fields), id))
  {
    var m := Store.Merge(stored, NamedInput(f, fields), id);
    PersistAt(m, k);
    PersistAt(m, "name");
  }

  // ---------------------------------------------------------------------------
  // parseInt

  function DigitValue(c: char): (d: int)
    ensures -1 <= d < 36
  {
    if '0' <= c <= '9' then c as int - '0' as int
    else if 'a' <= c <= 'z' then c as int - 'a' as int + 10
    else if 'A' <= c <= 'Z' then c as int - 'A' as int + 10
    else -1
  }

  predicate IsDigit(c: char, radix: nat)
  {
    0 <= DigitValue(c) < radix
  }

  /** The length of the run of digits `s` starts with. */
  function DigitRun(s: string, radix: nat): (n: nat)
    ensures n <= |s|
    ensures forall i :: 0 <= i < n ==> IsDigit(s[i], radix)
    ensures n < |s| ==> !IsDigit(s[n], radix)
  {
    if |s| > 0 && IsDigit(s[0], radix) then 1 + DigitRun(s[1..], radix) else 0
  }

  /**
   * Proof helper: `DigitsValue` returns `high * radix + d` as a `nat`, and
   * without this fact the solver's non-linear arithmetic fails to see the
   * product is non-negative on some random seeds.
   */
  lemma MulNonNegative(a: nat, b: nat)
    ensures a * b >= 0
  {
  }

  /** The number a run of digits denotes, most significant first. */
  function DigitsValue(ds: string, radix: nat): nat
    requires forall i :: 0 <= i < |ds| ==> IsDigit(ds[i], radix)
  {
    if |ds| == 0 then 0
    else
      var init := ds[..|ds| - 1];
      assert forall i :: 0 <= i < |init| ==> init[i] == ds[i];
      assert IsDigit(ds[|ds| - 1], radix);
      var high := DigitsValue(init, radix);
      MulNonNegative(high, radix);
      high * radix + DigitValue(ds[|ds| - 1])
  }

  /** The longest run of digits at the start of `w`, read in `radix`; `NaN` when there is none. */
  function ParseDigits(w: string, radix: nat): (r: Value)
    ensures r.Num? || r == NaN
  {
    var n := DigitRun(w, radix);
    if n == 0 then NaN else Num(DigitsValue(w[..n], radix))
  }

  /** An unsigned numeral: `0x`/`0X` selects hexadecimal, otherwise decimal. */
  function ParseMagnitude(u: string): (r: Value)
    ensures r.Num? || r == NaN
  {
    if |u| >= 2 && u[0] == '0' && (u[1] == 'x' || u[1] == 'X') then ParseDigits(u[2..], 16)
    else ParseDigits(u, 10)
  }

  function Negate(v: Value): Value
  {
    if v.Num? then Num(-v.n) else v
  }

  /**
   * `parseInt(s)` without a radix: leading white space and one sign are
   * skipped, and the longest run of digits that follows is read; with no digit
   * at all the result is `NaN`.
   */
  function ParseInt(s: string): (r: Value)
    ensures r.Num? || r == NaN
  {
    var t := TrimStart(s);
    if |t| > 0 && t[0] == '-' then Negate(ParseMagnitude(t[1..]))
    else if |t| > 0 && t[0] == '+' then ParseMagnitude(t[1..])
    else ParseMagnitude(t)
  }

  /** `parseInt(x)` on a form value: an array is first turned into its comma-joined string. */
  function ParseIntValue(v: Value): (r: Value)
    ensures r.Num? || r == NaN
  {
    match v
    case Str(s) => ParseInt(s)
    case Arr(xs) => ParseInt(Join(seq(|xs|, i requires 0 <= i < |xs| => if xs[i].Str? then xs[i].s else ""), ","))
    case _ => NaN
  }

  lemma DigitCharValue(d: nat)
    requires d < 10
    ensures DigitValue(DigitChar(d)) == d
  {
  }

  lemma DecimalRun(n: nat)
    ensures DigitRun(Decimal(n), 10) == |Decimal(n)|
  {
    var d := Decimal(n);
    assert forall i :: 0 <= i < |d| ==> IsDigit(d[i], 10);
  }

  lemma {:induction false} DecimalDigits(n: nat)
    ensures DigitRun(Decimal(n), 10) == |Decimal(n)|
    ensures DigitsValue(Decimal(n), 10) == n
  {
    DecimalRun(n);
    var d := Decimal(n);
    if n < 10 {
      DigitCharValue(n);
      assert d[..0] == [];
    } else {
      DecimalDigits(n / 10);
      DigitCharValue(n % 10);
      assert d[..|d| - 1] == Decimal(n / 10);
      assert d[|d| - 1] == DigitChar(n % 10);
    }
  }

  /** `parseInt` reads back the decimal rendering of every natural number. */
  lemma ParseDecimal(n: nat)
    ensures ParseInt(Decimal(n)) == Num(n)
  {
    var d := Decimal(n);
    DecimalDigits(n);
    assert !IsJsSpace(d[0]);
    assert TrimStart(d) == d;
    assert d[..|d|] == d;
    assert ParseMagnitude(d) == ParseDigits(d, 10);
  }

  /** A string that starts with no digit, after the optional sign, reads as `NaN`. */
  lemma ParseNoDigits(s: string)
    requires |s| > 0 && !IsJsSpace(s[0]) && s[0] != '-' && s[0] != '+' && !IsDigit(s[0], 10)
    ensures ParseInt(s) == NaN
  {
  }
}
