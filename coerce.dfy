/** The primitive checks of the loader (`_require_*`, `_optional_dict`,
    `_coerce_int`, `_parse_point`) and the context labels it builds.

    Each check takes a raw value and the dotted label of its place in the
    document, and either returns the typed value or fails with that label.
 */
module Coerce {
  import opened Results
  import opened JsonValue
  import opened Numerals

  /** `Tuple[int, int]`: a grid position, a size or an offset. */
  datatype Point = Point(x: int, y: int)

  /** `f"{ctx}.{name}"` */
  function Field(ctx: string, name: string): string {
    ctx + "." + name
  }

  /** `f"{ctx}[{i}]"` */
  function Index(ctx: string, i: int): string {
    ctx + "[" + FormatInt(i) + "]"
  }

  // ---------------------------------------------------------------- strict checks

  function RequireDict(v: Json, ctx: string): (r: Result<Fields>)
    ensures r.Ok? <==> v.JObj?
    ensures r.Ok? ==> v == JObj(r.value)
    ensures r.Err? ==> r.error == Error(ExpectedObject, ctx)
  {
    if v.JObj? then Ok(v.fields) else Err(Error(ExpectedObject, ctx))
  }

  function RequireList(v: Json, ctx: string): (r: Result<seq<Json>>)
    ensures r.Ok? <==> v.JArr?
    ensures r.Ok? ==> v == JArr(r.value)
    ensures r.Err? ==> r.error == Error(ExpectedArray, ctx)
  {
    if v.JArr? then Ok(v.items) else Err(Error(ExpectedArray, ctx))
  }

  function RequireStr(v: Json, ctx: string): (r: Result<string>)
    ensures r.Ok? <==> v.JStr?
    ensures r.Ok? ==> v == JStr(r.value)
    ensures r.Err? ==> r.error == Error(ExpectedString, ctx)
  {
    if v.JStr? then Ok(v.s) else Err(Error(ExpectedString, ctx))
  }

  /** A bool is not an int here, although Python's `bool` subclasses `int`. */
  function RequireInt(v: Json, ctx: string): (r: Result<int>)
    ensures r.Ok? <==> v.JInt?
    ensures r.Ok? ==> v == JInt(r.value)
    ensures v.JBool? ==> r.Err?
    ensures r.Err? ==> r.error == Error(ExpectedInt, ctx)
  {
    if v.JInt? then Ok(v.i) else Err(Error(ExpectedInt, ctx))
  }

  /** An int or a float, but not a bool, widened to a float. */
  function RequireFloat(v: Json, ctx: string): (r: Result<real>)
    ensures r.Ok? <==> v.JInt? || v.JNum?
    ensures v.JInt? ==> r == Ok(v.i as real)
    ensures v.JNum? ==> r == Ok(v.r)
    ensures v.JBool? ==> r.Err?
    ensures r.Err? ==> r.error == Error(ExpectedFloat, ctx)
  {
    match v
    case JInt(i) => Ok(i as real)
    case JNum(x) => Ok(x)
    case _ => Err(Error(ExpectedFloat, ctx))
  }

  function RequireBool(v: Json, ctx: string): (r: Result<bool>)
    ensures r.Ok? <==> v.JBool?
    ensures r.Ok? ==> v == JBool(r.value)
    ensures r.Err? ==> r.error == Error(ExpectedBool, ctx)
  {
    if v.JBool? then Ok(v.b) else Err(Error(ExpectedBool, ctx))
  }

  /** None for null (or a missing key), otherwise an object is required. */
  function OptionalDict(v: Json, ctx: string): (r: Result<Option<Fields>>)
    ensures r.Ok? <==> v.JNull? || v.JObj?
    ensures v.JNull? ==> r == Ok(None)
    ensures r.Ok? && r.value.Some? ==> v == JObj(r.value.value)
    ensures r.Err? ==> r.error == Error(ExpectedObject, ctx)
  {
    if v.JNull? then Ok(None) else
    var d :- RequireDict(v, ctx);
    Ok(Some(d))
  }

  // ---------------------------------------------------------------- lenient checks

  /** An int as it is, or a string that `int()` reads as base 10. */
  function CoerceInt(v: Json, ctx: string): (r: Result<int>)
    ensures r.Ok? <==> v.JInt? || (v.JStr? && ParseInt(v.s).Some?)
    ensures v.JInt? ==> r == Ok(v.i)
    ensures v.JStr? && r.Ok? ==> ParseInt(v.s) == Some(r.value)
    ensures r.Err? ==> r.error == Error(if v.JStr? then ExpectedIntLikeString else ExpectedInt, ctx)
  {
    match v
    case JBool(_) => Err(Error(ExpectedInt, ctx))
    case JInt(i) => Ok(i)
    case JStr(s) =>
      (match ParseInt(s)
       case Some(i) => Ok(i)
       case None => Err(Error(ExpectedIntLikeString, ctx)))
    case _ => Err(Error(ExpectedInt, ctx))
  }

  /** Whatever `str(int)` writes, `CoerceInt` reads back. */
  lemma CoerceIntFormatted(i: int, ctx: string)
    ensures CoerceInt(JStr(FormatInt(i)), ctx) == Ok(i)
  {
    ParseIntFormat(i);
  }

  lemma CoerceIntExamples(ctx: string)
    ensures CoerceInt(JInt(5), ctx) == Ok(5)
    ensures CoerceInt(JStr("5"), ctx) == Ok(5)
    ensures CoerceInt(JStr("-3"), ctx) == Ok(-3)
    ensures CoerceInt(JBool(true), ctx) == Err(Error(ExpectedInt, ctx))
    ensures CoerceInt(JStr("5.0"), ctx) == Err(Error(ExpectedIntLikeString, ctx))
    ensures CoerceInt(JStr("abc"), ctx) == Err(Error(ExpectedIntLikeString, ctx))
    ensures CoerceInt(JNull, ctx) == Err(Error(ExpectedInt, ctx))
  {
    assert DigitsValue("5") == 5 by { assert "5"[..0] == ""; }
    assert DigitsValue("3") == 3 by { assert "3"[..0] == ""; }
    assert "-3"[1..] == "3";
    assert !IsDigit("5.0"[1]);
    assert !IsDigit("abc"[0]);
  }

  // ---------------------------------------------------------------- points

  /** `"x;y"`: exactly two parts around one `;`, each read by `int(float(.))`. */
  function ParsePoint(text: string, ctx: string): (r: Result<Point>)
    ensures r.Ok? ==> |Split(text, ';')| == 2
    ensures (|Split(text, ';')| == 2 && ParseDecimal(Split(text, ';')[0]).Some?
             && ParseDecimal(Split(text, ';')[1]).Some?) ==> r.Ok?
    ensures r.Ok? ==> Some(r.value.x) == ParseDecimal(Split(text, ';')[0])
    ensures r.Ok? ==> Some(r.value.y) == ParseDecimal(Split(text, ';')[1])
    ensures r.Err? ==> r.error == Error(InvalidPoint, ctx)
  {
    var parts := Split(text, ';');
    if |parts| != 2 then Err(Error(InvalidPoint, ctx))
    else match (ParseDecimal(parts[0]), ParseDecimal(parts[1]))
      case (Some(x), Some(y)) => Ok(Point(x, y))
      case _ => Err(Error(InvalidPoint, ctx))
  }

  /** `f"{x};{y}"`, the text the loader writes for a default point. */
  function FormatPoint(p: Point): string {
    FormatInt(p.x) + ";" + FormatInt(p.y)
  }

  /** Two decimal literals around a single `;` decode to their truncated values. */
  lemma PointOfParts(a: string, b: string, ctx: string)
    requires ParseDecimal(a).Some? && ParseDecimal(b).Some?
    requires ';' !in a && ';' !in b
    ensures ParsePoint(a + ";" + b, ctx) == Ok(Point(ParseDecimal(a).value, ParseDecimal(b).value))
  {
    SplitJoin([a, b], ';');
    assert Join([a, b], ';') == a + ";" + b;
  }

  lemma PointRoundTrip(p: Point, ctx: string)
    ensures ParsePoint(FormatPoint(p), ctx) == Ok(p)
  {
    ParseIntFormat(p.x);
    ParseIntFormat(p.y);
    IntLiteralIsDecimal(FormatInt(p.x));
    IntLiteralIsDecimal(FormatInt(p.y));
    PointOfParts(FormatInt(p.x), FormatInt(p.y), ctx);
  }

  /** Fractions are truncated toward zero: `"3.9;-2.1"` is (3, -2). */
  lemma PointTruncates(ctx: string)
    ensures ParsePoint("3.9;-2.1", ctx) == Ok(Point(3, -2))
  {
    PositiveFractionTruncates();
    NegativeFractionTruncates();
    assert ';' !in "3.9" && ';' !in "-2.1";
    PointOfParts("3.9", "-2.1", ctx);
    assert "3.9" + ";" + "-2.1" == "3.9;-2.1";
  }

  lemma PositiveFractionTruncates()
    ensures ParseDecimal("3.9") == Some(3)
  {
    ParseIntFormat(3);
    assert FormatInt(3) == "3";
    TruncatesFraction("3", "9");
    assert "3" + "." + "9" == "3.9";
  }

  lemma NegativeFractionTruncates()
    ensures ParseDecimal("-2.1") == Some(-2)
  {
    ParseIntFormat(-2);
    assert FormatInt(-2) == "-2";
    TruncatesFraction("-2", "1");
    assert "-2" + "." + "1" == "-2.1";
  }

  /** Without a `;` there is only one part. */
  lemma PointNeedsSeparator(text: string, ctx: string)
    requires ';' !in text
    ensures ParsePoint(text, ctx) == Err(Error(InvalidPoint, ctx))
  {
    SplitNoSeparator(text, ';');
  }

  /** With two or more `;` there are at least three parts. */
  lemma PointRejectsTwoSeparators(a: string, b: string, c: string, ctx: string)
    requires ';' !in a && ';' !in b
    ensures ParsePoint(a + ";" + b + ";" + c, ctx) == Err(Error(InvalidPoint, ctx))
  {
    SplitPrefix(b, c, ';');
    assert a + ";" + b + ";" + c == a + [';'] + (b + [';'] + c);
    SplitPrefix(a, b + [';'] + c, ';');
  }

  /** A part that is not a decimal literal, the empty part included, fails. */
  lemma PointRejectsNonNumeric(a: string, b: string, ctx: string)
    requires ';' !in a && ';' !in b
    requires ParseDecimal(a).None? || ParseDecimal(b).None?
    ensures ParsePoint(a + ";" + b, ctx) == Err(Error(InvalidPoint, ctx))
  {
    SplitJoin([a, b], ';');
    assert Join([a, b], ';') == a + ";" + b;
  }

  lemma PointRejectsEmpty(ctx: string)
    ensures ParsePoint("", ctx) == Err(Error(InvalidPoint, ctx))
  {
    PointNeedsSeparator("", ctx);
  }
}
