/**
 * The upload middleware: the name under which an uploaded file is stored,
 * `${Date.now()}_${base}${ext}` with the base name sanitised, and the public
 * URL path of a stored file. The clock reading is a parameter.
 */
module Upload {
  import opened Json
  import opened Text
  import Forms

  /** The characters the sanitiser keeps: `[a-zA-Z0-9-_]`. */
  predicate IsAllowed(c: char)
  {
    ('a' <= c <= 'z') || ('A' <= c <= 'Z') || ('0' <= c <= '9') || c == '-' || c == '_'
  }

  /** `s.replace(/[^a-zA-Z0-9-_]/g, "_")`. */
  function Sanitize(s: string): (r: string)
    ensures |r| == |s|
    ensures forall i :: 0 <= i < |s| ==> r[i] == if IsAllowed(s[i]) then s[i] else '_'
  {
    seq(|s|, i requires 0 <= i < |s| => if IsAllowed(s[i]) then s[i] else '_')
  }

  /** A sanitised name holds only allowed characters, and sanitising it again changes nothing. */
  lemma SanitizeIdempotent(s: string)
    ensures forall i :: 0 <= i < |s| ==> IsAllowed(Sanitize(s)[i])
    ensures Sanitize(Sanitize(s)) == Sanitize(s)
  {
  }

  /** A name made of allowed characters only is kept as it is. */
  lemma SanitizeKeepsAllowed(s: string)
    requires forall i :: 0 <= i < |s| ==> IsAllowed(s[i])
    ensures Sanitize(s) == s
  {
  }

  /** The position of the last `.` in `s`, or -1. */
  function LastDot(s: string): (i: int)
    ensures -1 <= i < |s|
    ensures i >= 0 ==> s[i] == '.'
    ensures forall j :: i < j < |s| ==> s[j] != '.'
  {
    if |s| == 0 then -1
    else if s[|s| - 1] == '.' then |s| - 1
    else LastDot(s[..|s| - 1])
  }

  /**
   * `path.extname(name)` for a name without `/`: from the last dot to the end,
   * except that there is none when the name has no dot, starts with its only
   * leading dot, or is `..`.
   */
  function Ext(name: string): (e: string)
    ensures |e| <= |name|
    ensures e == "" || (e[0] == '.' && e == name[|name| - |e|..])
  {
    var d := LastDot(name);
    if d <= 0 || name == ".." then "" else name[d..]
  }

  /** `path.basename(name, ext)`: the name without its extension. */
  function Base(name: string): (b: string)
    ensures b + Ext(name) == name
  {
    name[..|name| - |Ext(name)|]
  }

  /** An extension holds exactly one dot, its first character. */
  lemma ExtShape(name: string)
    ensures forall j :: 0 < j < |Ext(name)| ==> Ext(name)[j] != '.'
    ensures Ext(name) != "" ==> |Base(name)| > 0
  {
  }

  /** The stored file name: the clock reading `now` in decimal, `_`, the sanitised base name, the extension as sent. */
  function StoredName(now: nat, originalName: string): string
  {
    Decimal(now) + "_" + Sanitize(Base(originalName)) + Ext(originalName)
  }

  /** Before the extension, a stored name is made of allowed characters only; the extension is not sanitised. */
  lemma StoredNameShape(now: nat, originalName: string)
    ensures var r := StoredName(now, originalName);
      var prefix := |r| - |Ext(originalName)|;
      && (forall i :: 0 <= i < prefix ==> IsAllowed(r[i]))
      && r[prefix..] == Ext(originalName)
      && |r| == |Decimal(now)| + 1 + |originalName|
  {
    var r := StoredName(now, originalName);
    var d := Decimal(now);
    var b := Sanitize(Base(originalName));
    forall i | 0 <= i < |r| - |Ext(originalName)| ensures IsAllowed(r[i]) {
      if i < |d| {
        assert r[i] == d[i];
      } else if i > |d| {
        assert r[i] == b[i - |d| - 1];
      }
    }
  }

  lemma {:induction false} DigitRunStops(ds: string, rest: string)
    requires forall i :: 0 <= i < |ds| ==> Forms.IsDigit(ds[i], 10)
    requires |rest| > 0 && !Forms.IsDigit(rest[0], 10)
    ensures Forms.DigitRun(ds + rest, 10) == |ds|
  {
    if |ds| > 0 {
      assert (ds + rest)[1..] == ds[1..] + rest;
      DigitRunStops(ds[1..], rest);
    }
  }

  /** `parseInt` stops at the first character after the decimal rendering of a number. */
  lemma ParseDecimalPrefix(n: nat, rest: string)
    requires |rest| > 0 && !Forms.IsDigit(rest[0], 10) && rest[0] != 'x' && rest[0] != 'X'
    ensures Forms.ParseInt(Decimal(n) + rest) == Num(n)
  {
    var d := Decimal(n);
    var r := d + rest;
    Forms.DecimalDigits(n);
    DigitRunStops(d, rest);
    assert r[0] == d[0] && !IsJsSpace(r[0]) && r[0] != '-' && r[0] != '+';
    assert TrimStart(r) == r;
    assert !(|r| >= 2 && r[0] == '0' && (r[1] == 'x' || r[1] == 'X')) by {
      if |d| == 1 {
        assert r[1] == rest[0];
      } else {
        assert r[1] == d[1];
      }
    }
    assert r[..|d|] == d;
    assert Forms.ParseMagnitude(r) == Forms.ParseDigits(r, 10);
  }

  /** `parseInt` of a stored name reads back the clock reading it was stored under. */
  lemma StoredNameTimestamp(now: nat, originalName: string)
    ensures Forms.ParseInt(StoredName(now, originalName)) == Num(now)
  {
    var rest := "_" + Sanitize(Base(originalName)) + Ext(originalName);
    assert StoredName(now, originalName) == Decimal(now) + rest;
    ParseDecimalPrefix(now, rest);
  }

  /** `toPublicPath(filename)`. */
  function PublicPath(filename: string): string
  {
    "/uploads/" + filename
  }

  /** `icon.replace('/uploads/', '')`, as the handlers recover a stored file's name, undoes `toPublicPath`. */
  lemma PublicPathRoundTrip(filename: string)
    ensures ReplaceFirst(PublicPath(filename), "/uploads/", "") == filename
    ensures |PublicPath(filename)| == |filename| + 9
  {
    assert OccursAt(PublicPath(filename), "/uploads/", 0);
  }
}
