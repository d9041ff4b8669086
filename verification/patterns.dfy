/** `ValidationPatterns`: ready-made numeric and string checks built on the
    engine's assertions. */
module ValidationPatterns {
  import opened Wrappers
  import opened PyText
  import opened PyValues
  import opened Errors
  import opened Messages
  import opened ValidationConfig
  import opened NameExtractor
  import opened Validators
  import opened ValidationEngine

  /** The lower bound standing in for "strictly above zero". */
  const PositiveFloor: Num := FloatNum(0.0001)

  /** `validate_positive_number`: a number of at least 0.0001. */
  function ValidatePositiveNumber(cfg: Config, site: FrameInfo, v: Value): (r: Result<Value, Exc>)
    ensures r.Success? ==> r.value == v
    ensures cfg.raiseOnFailure ==> (r.Success? <==> IsNumber(v) && NumericValue(v) >= 0.0001)
    ensures !cfg.raiseOnFailure ==> (r.Success? <==> IsNumber(v))
  {
    AssertNumeric(cfg, site, v, Some(PositiveFloor), None, None)
  }

  /** `validate_non_negative_number`: a number of at least 0. */
  function ValidateNonNegativeNumber(cfg: Config, site: FrameInfo, v: Value): (r: Result<Value, Exc>)
    ensures r.Success? ==> r.value == v
    ensures cfg.raiseOnFailure ==> (r.Success? <==> IsNumber(v) && NumericValue(v) >= 0.0)
    ensures !cfg.raiseOnFailure ==> (r.Success? <==> IsNumber(v))
  {
    AssertNumeric(cfg, site, v, Some(IntNum(0)), None, None)
  }

  /** `validate_percentage`: a number from 0 to 100 inclusive. */
  function ValidatePercentage(cfg: Config, site: FrameInfo, v: Value): (r: Result<Value, Exc>)
    ensures r.Success? ==> r.value == v
    ensures cfg.raiseOnFailure ==> (r.Success? <==> IsNumber(v) && 0.0 <= NumericValue(v) <= 100.0)
    ensures !cfg.raiseOnFailure ==> (r.Success? <==> IsNumber(v))
  {
    AssertNumeric(cfg, site, v, Some(IntNum(0)), Some(IntNum(100)), None)
  }

  /** Under the default configuration zero is not positive but is
      non-negative, True counts as the number 1, and 100.5 is not a
      percentage. */
  lemma NumericPatternExamples(site: FrameInfo)
    ensures ValidatePositiveNumber(NewConfig(), site, PyInt(0)).Failure?
    ensures ValidateNonNegativeNumber(NewConfig(), site, PyInt(0)) == Success(PyInt(0))
    ensures ValidatePositiveNumber(NewConfig(), site, PyBool(true)) == Success(PyBool(true))
    ensures ValidatePercentage(NewConfig(), site, PyFloat(100.5)).Failure?
    ensures ValidatePercentage(NewConfig(), site, PyStr("50")).Failure?
  {
  }

  /** Every positive number is non-negative, under any configuration. */
  lemma PositiveIsNonNegative(cfg: Config, site: FrameInfo, v: Value)
    requires ValidatePositiveNumber(cfg, site, v).Success?
    ensures ValidateNonNegativeNumber(cfg, site, v).Success?
  {
  }

  /** `value.strip()` is empty, for the values that have `strip`. */
  function StripsToEmpty(v: Value): (r: Result<bool, Exc>)
    ensures v.PyStr? ==> r == Success(IsBlank(v.s))
    ensures v.PyBytes? ==> r == Success(IsBlankBytes(v.bytes))
    ensures r.Failure? <==> !v.PyStr? && !v.PyBytes?
  {
    match v
    case PyStr(s) => Success(IsBlank(s))
    case PyBytes(bs) => Success(IsBlankBytes(bs))
    case _ => Failure(AttributeError("'" + TypeName(TypeOf(v)) + "' object has no attribute 'strip'"))
  }

  /** `validate_non_empty_string`: a str first (following `raiseOnFailure`),
      then a blank value raises the configured exception whatever
      `raiseOnFailure` says. */
  function ValidateNonEmptyString(cfg: Config, site: FrameInfo, v: Value): (r: Result<Value, Exc>)
    ensures r.Success? ==> r.value == v
    ensures cfg.raiseOnFailure ==> (r.Success? <==> v.PyStr? && !IsBlank(v.s))
    ensures v.PyStr? && IsBlank(v.s) ==> r == Failure(Fail(cfg, None, Rejected(SubjectName(cfg, site), BlankString)))
    ensures !cfg.raiseOnFailure ==> (r.Success? <==> (v.PyStr? && !IsBlank(v.s)) || (v.PyBytes? && !IsBlankBytes(v.bytes)))
    ensures !cfg.raiseOnFailure && !v.PyStr? && !v.PyBytes? ==> r.Failure? && r.error.AttributeError?
  {
    StrTypeCheck(v);
    var s :- AssertType(cfg, site, v, Some(OneType(StrT)), None);
    var blank :- StripsToEmpty(s);
    if blank then Failure(Fail(cfg, None, Rejected(SubjectName(cfg, site), BlankString)))
    else Success(s)
  }

  /** Whitespace-only text is rejected as blank, not as a type error. */
  lemma NonEmptyStringExamples(cfg: Config, site: FrameInfo)
    ensures ValidateNonEmptyString(cfg, site, PyStr(" \t\n")) == Failure(Fail(cfg, None, Rejected(SubjectName(cfg, site), BlankString)))
    ensures ValidateNonEmptyString(cfg, site, PyStr(" a ")) == Success(PyStr(" a "))
    ensures ValidateNonEmptyString(cfg, site, PyStr("")).Failure?
  {
    var blank, filled := " \t\n", " a ";
    assert IsBlank(blank) by {
      assert IsSpace(blank[0]) && IsSpace(blank[1]) && IsSpace(blank[2]);
    }
    assert !IsBlank(filled) by { assert !IsSpace(filled[1]); }
    assert IsBlank("");
  }
}
