/** The four validators. Each pairs a predicate with a describer that names the
    first violated constraint in a fixed order. Misuse of a validator (no
    expected type, an uncomparable value) raises a builtin error instead. */
module Validators {
  import opened Wrappers
  import opened PyText
  import opened PyValues
  import opened Errors
  import opened Messages

  // ---- type ------------------------------------------------------------------

  /** Whether `v` is an instance of at least one of `ts`. */
  function AnyInstance(v: Value, ts: seq<PyType>): (r: bool)
    ensures r <==> exists i :: 0 <= i < |ts| && IsInstance(v, ts[i])
  {
    if ts == [] then false
    else
      assert forall i :: 1 <= i < |ts| ==> ts[i] == ts[1..][i - 1];
      IsInstance(v, ts[0]) || AnyInstance(v, ts[1..])
  }

  const MissingExpectedType := ValueError("expected_type must be provided")

  /** `TypeValidator.validate`. */
  function TypeValidate(v: Value, expected: Option<TypeSpec>): (r: Result<bool, Exc>)
    ensures expected.None? <==> r.Failure?
    ensures r.Failure? ==> r.error == MissingExpectedType
    ensures expected.Some? && expected.value.OneType? ==> r.Success? && (r.value <==> IsInstance(v, expected.value.t))
    ensures expected.Some? && !expected.value.OneType? ==>
              r.Success? && (r.value <==> exists t :: t in expected.value.types && IsInstance(v, t))
  {
    match expected
    case None => Failure(MissingExpectedType)
    case Some(OneType(t)) => Success(IsInstance(v, t))
    case Some(TypeList(ts)) => Success(AnyInstance(v, ts))
    case Some(TypeTuple(ts)) => Success(AnyInstance(v, ts))
  }

  /** `TypeValidator.get_error_message`. */
  function TypeFailure(v: Value, name: string, expected: Option<TypeSpec>): (r: Result<Failure, Exc>)
    ensures expected.None? <==> r.Failure?
    ensures r.Failure? ==> r.error == MissingExpectedType
    ensures r.Success? ==> r.value.name == name
                           && r.value.problem == WrongType(expected.value, TypeOf(v))
  {
    match expected
    case None => Failure(MissingExpectedType)
    case Some(spec) => Success(Rejected(name, WrongType(spec, TypeOf(v))))
  }

  // ---- range -----------------------------------------------------------------

  predicate AtLeast(v: Value, bound: Option<Num>)
    requires IsNumber(v)
  {
    bound.None? || NumericValue(v) >= bound.value.Real()
  }

  predicate AtMost(v: Value, bound: Option<Num>)
    requires IsNumber(v)
  {
    bound.None? || NumericValue(v) <= bound.value.Real()
  }

  /** Python's `v < b` (`op` "<") or `v > b` (`op` ">") for a numeric bound. */
  function Compare(v: Value, op: string, b: Num): Result<bool, Exc> {
    if !IsNumber(v) then
      Failure(TypeError("'" + op + "' not supported between instances of '"
                        + TypeName(TypeOf(v)) + "' and '" + b.TypeName() + "'"))
    else if op == "<" then Success(NumericValue(v) < b.Real())
    else Success(NumericValue(v) > b.Real())
  }

  /** `RangeValidator.validate`: both bounds inclusive, an absent bound not
      checked. A non-number against a bound raises TypeError. */
  function RangeValidate(v: Value, minVal: Option<Num>, maxVal: Option<Num>): (r: Result<bool, Exc>)
    ensures minVal.None? && maxVal.None? ==> r == Success(true)
    ensures IsNumber(v) ==> r == Success(AtLeast(v, minVal) && AtMost(v, maxVal))
    ensures !IsNumber(v) ==> (r.Failure? <==> minVal.Some? || maxVal.Some?)
    ensures r.Failure? ==> r.error.TypeError?
  {
    if minVal.Some? then
      var below :- Compare(v, "<", minVal.value);
      if below then Success(false) else RangeMax(v, maxVal)
    else RangeMax(v, maxVal)
  }

  function RangeMax(v: Value, maxVal: Option<Num>): Result<bool, Exc> {
    if maxVal.Some? then
      var above :- Compare(v, ">", maxVal.value);
      Success(!above)
    else Success(true)
  }

  /** `RangeValidator.get_error_message`: a minimum violation is reported
      before a maximum violation; the generic text appears exactly when the
      value is in range. */
  function RangeFailure(v: Value, name: string, minVal: Option<Num>, maxVal: Option<Num>): (r: Result<Failure, Exc>)
    requires IsNumber(v)
    ensures r.Success? && r.value.name == name
    ensures r.value.problem.BelowMin? <==> !AtLeast(v, minVal)
    ensures r.value.problem.AboveMax? <==> AtLeast(v, minVal) && !AtMost(v, maxVal)
    ensures r.value.problem.OutOfRange? <==> AtLeast(v, minVal) && AtMost(v, maxVal)
    ensures r.value.problem.BelowMin? ==> r.value == Rejected(name, BelowMin(minVal.value, v))
    ensures r.value.problem.AboveMax? ==> r.value == Rejected(name, AboveMax(maxVal.value, v))
  {
    if minVal.Some? && NumericValue(v) < minVal.value.Real() then Success(Rejected(name, BelowMin(minVal.value, v)))
    else if maxVal.Some? && NumericValue(v) > maxVal.value.Real() then Success(Rejected(name, AboveMax(maxVal.value, v)))
    else Success(Rejected(name, OutOfRange))
  }

  // ---- length ----------------------------------------------------------------

  /** The three length constraints, all of which must hold together. */
  predicate LengthOk(n: nat, minLen: Option<int>, maxLen: Option<int>, length: Option<int>) {
    (length.None? || n == length.value)
    && (minLen.None? || n >= minLen.value)
    && (maxLen.None? || n <= maxLen.value)
  }

  /** `LengthValidator.validate`: an unsized value fails without raising; an
      exact length does not switch the bounds off. */
  function LengthValidate(v: Value, minLen: Option<int>, maxLen: Option<int>, length: Option<int>): (r: bool)
    ensures r <==> Len(v).Some? && LengthOk(Len(v).value, minLen, maxLen, length)
  {
    match Len(v)
    case None => false
    case Some(n) =>
      if length.Some? && n != length.value then false
      else if minLen.Some? && n < minLen.value then false
      else if maxLen.Some? && n > maxLen.value then false
      else true
  }

  /** `LengthValidator.get_error_message`: unsized first, then exact, minimum
      and maximum in that order; the generic text appears exactly when the
      length is acceptable. */
  function LengthFailure(v: Value, name: string, minLen: Option<int>, maxLen: Option<int>, length: Option<int>): (r: Failure)
    ensures r.name == name
    ensures r.problem.NoLength? <==> Len(v).None?
    ensures r.problem.NoLength? ==> r.problem.given == TypeOf(v)
    ensures r.problem.LengthNotExact? <==> Len(v).Some? && length.Some? && Len(v).value != length.value
    ensures r.problem.LengthBelow? <==> Len(v).Some? && LengthOk(Len(v).value, None, None, length)
                                        && minLen.Some? && Len(v).value < minLen.value
    ensures r.problem.LengthAbove? <==> Len(v).Some? && LengthOk(Len(v).value, minLen, None, length)
                                        && maxLen.Some? && Len(v).value > maxLen.value
    ensures r.problem.InvalidLength? <==> LengthValidate(v, minLen, maxLen, length)
    ensures r.problem.LengthNotExact? || r.problem.LengthBelow? || r.problem.LengthAbove? ==> r.problem.length == Len(v).value
  {
    match Len(v)
    case None => Rejected(name, NoLength(TypeOf(v)))
    case Some(n) =>
      if length.Some? && n != length.value then Rejected(name, LengthNotExact(length.value, n))
      else if minLen.Some? && n < minLen.value then Rejected(name, LengthBelow(minLen.value, n))
      else if maxLen.Some? && n > maxLen.value then Rejected(name, LengthAbove(maxLen.value, n))
      else Rejected(name, InvalidLength)
  }

  // ---- path ------------------------------------------------------------------

  /** A snapshot of the filesystem: the regular files and the directories. */
  datatype Fs = Fs(files: set<string>, dirs: set<string>) {
    predicate Exists(p: string) {
      p in files || p in dirs
    }
    predicate IsFile(p: string) {
      p in files
    }
    predicate IsDir(p: string) {
      p in dirs
    }
  }

  /** The existence and kind predicates a path is asked to meet. */
  datatype PathRules = PathRules(mustExist: Option<bool>, mustBeFile: bool, mustBeDir: bool)

  predicate PathRulesHold(fs: Fs, p: string, rules: PathRules) {
    && (rules.mustExist == Some(true) ==> fs.Exists(p))
    && (rules.mustExist == Some(false) ==> !fs.Exists(p))
    && (rules.mustBeFile ==> fs.Exists(p) && fs.IsFile(p))
    && (rules.mustBeDir ==> fs.Exists(p) && fs.IsDir(p))
  }

  /** The TypeError text of `Path(x)` for an argument that is not a str or a
      path. */
  function PathArgumentError(v: Value): string {
    "argument should be a str or an os.PathLike object where __fspath__ returns a str, not '"
    + TypeName(TypeOf(v)) + "'"
  }

  /** `Path(str(b))` as written: `str()` of a bytes object is its repr, so the
      resulting path text is `b'...'`. */
  function PathOfBytesAsWritten(bs: seq<byte>): string {
    BytesRepr(bs)
  }

  /** The decoding the bytes branch evidently intends: each byte becomes the
      character with the same code (the file-system decoding for ASCII). */
  function PathOfBytes(bs: seq<byte>): (r: string)
    ensures |r| == |bs|
    ensures forall i :: 0 <= i < |bs| ==> r[i] as int == bs[i]
  {
    if bs == [] then [] else [bs[0] as char] + PathOfBytes(bs[1..])
  }

  /** Converting a value to a path the way `validate` and `assert_path` do:
      a path is kept, str and bytes are converted, anything else raises
      TypeError. */
  function ConvertToPath(v: Value): (r: Result<string, Exc>)
    ensures r.Success? <==> v.PyPath? || v.PyStr? || v.PyBytes?
    ensures v.PyPath? ==> r == Success(v.path)
    ensures v.PyStr? ==> r == Success(v.s)
    ensures v.PyBytes? ==> r == Success(PathOfBytes(v.bytes))
    ensures r.Failure? ==> r.error == TypeError(PathArgumentError(v))
  {
    if v.PyPath? then Success(v.path)
    else if v.PyStr? then Success(v.s)
    else if v.PyBytes? then Success(PathOfBytes(v.bytes))
    else Failure(TypeError(PathArgumentError(v)))
  }

  /** The same conversion as the source writes it. */
  function ConvertToPathAsWritten(v: Value): Result<string, Exc> {
    if v.PyBytes? then Success(PathOfBytesAsWritten(v.bytes)) else ConvertToPath(v)
  }

  /** A bytes path comes out of the conversion as written with its `b'...'`
      decoration instead of its own text. */
  lemma BytesPathAsWrittenIsMangled()
    ensures ConvertToPathAsWritten(PyBytes([47, 116, 109, 112])) == Success("b'/tmp'")
    ensures ConvertToPath(PyBytes([47, 116, 109, 112])) == Success("/tmp")
  {
    var bs: seq<byte> := [47, 116, 109, 112];
    assert EscapeBytes(bs, '\'') == "/tmp" by {
      assert EscapeBytes(bs[3..], '\'') == "p" by { assert bs[3..][1..] == []; }
      assert EscapeBytes(bs[2..], '\'') == "mp" by { assert bs[2..][1..] == bs[3..]; }
      assert EscapeBytes(bs[1..], '\'') == "tmp" by { assert bs[1..][1..] == bs[2..]; }
    }
    assert 39 !in bs;
    assert BytesRepr(bs) == "b'" + "/tmp" + "'";
    assert "b'" + "/tmp" + "'" == "b'/tmp'";
    assert ConvertToPathAsWritten(PyBytes(bs)) == Success("b'/tmp'");
    var p := PathOfBytes(bs);
    assert p == "/tmp" by {
      assert |p| == 4 && p[0] as int == 47 && p[1] as int == 116 && p[2] as int == 109 && p[3] as int == 112;
    }
  }

  /** Whether a str or bytes argument is empty (a str also when it is only
      whitespace); such a value is never a valid path. */
  predicate IsEmptyPathText(v: Value) {
    (v.PyStr? && IsBlank(v.s)) || (v.PyBytes? && |v.bytes| == 0)
  }

  /** `PathValidator.validate`. */
  function PathValidate(fs: Fs, v: Value, rules: PathRules): (r: bool)
    ensures r <==> !IsEmptyPathText(v) && ConvertToPath(v).Success?
                   && PathRulesHold(fs, ConvertToPath(v).value, rules)
  {
    if IsEmptyPathText(v) then false
    else match ConvertToPath(v)
      case Failure(_) => false
      case Success(p) =>
        if rules.mustExist == Some(true) && !fs.Exists(p) then false
        else if rules.mustExist == Some(false) && fs.Exists(p) then false
        else if rules.mustBeFile && (!fs.Exists(p) || !fs.IsFile(p)) then false
        else if rules.mustBeDir && (!fs.Exists(p) || !fs.IsDir(p)) then false
        else true
  }

  /** `Path(v)` as the describer calls it, without the str() step: bytes are
      rejected here. */
  function PathConstructor(v: Value): (r: Result<string, Exc>)
    ensures r.Success? <==> v.PyPath? || v.PyStr?
  {
    if v.PyPath? then Success(v.path)
    else if v.PyStr? then Success(v.s)
    else Failure(TypeError(PathArgumentError(v)))
  }

  /** `PathValidator.get_error_message`: conversion, emptiness, then the
      existence rule, the file rule and the directory rule, each "missing"
      before "wrong kind". For everything except bytes it agrees with
      `PathValidate`: the generic text appears exactly when the path is
      valid. */
  function PathFailure(fs: Fs, v: Value, name: string, rules: PathRules): (r: Failure)
    ensures r.name == name
    ensures r.problem.NotConvertible? <==> !v.PyPath? && !v.PyStr?
    ensures !v.PyBytes? ==> (r.problem.PathInvalid? <==> PathValidate(fs, v, rules))
    ensures r.problem.EmptyPath? <==> v.PyStr? && IsBlank(v.s)
    ensures (v.PyPath? || v.PyStr?) && !IsEmptyPathText(v) ==>
              var p := PathConstructor(v).value;
              && (r.problem.PathMissing? <==> rules.mustExist == Some(true) && !fs.Exists(p))
              && (r.problem.PathPresent? <==> rules.mustExist == Some(false) && fs.Exists(p))
              && (r.problem.FileMissing? <==> rules.mustBeFile && !fs.Exists(p) && rules.mustExist != Some(true))
              && (r.problem.NotAFile? <==> rules.mustBeFile && fs.Exists(p) && !fs.IsFile(p)
                                           && rules.mustExist != Some(false))
              && (r.problem.DirMissing? <==> rules.mustBeDir && !fs.Exists(p) && !rules.mustBeFile
                                             && rules.mustExist != Some(true))
              && (r.problem.NotADir? <==> rules.mustBeDir && fs.Exists(p) && !fs.IsDir(p)
                                          && rules.mustExist != Some(false) && (!rules.mustBeFile || fs.IsFile(p)))
  {
    match PathConstructor(v)
    case Failure(e) => Rejected(name, NotConvertible(e.msg))
    case Success(p) =>
      if IsEmptyPathText(v) then Rejected(name, EmptyPath)
      else if rules.mustExist == Some(true) && !fs.Exists(p) then Rejected(name, PathMissing(p))
      else if rules.mustExist == Some(false) && fs.Exists(p) then Rejected(name, PathPresent(p))
      else if rules.mustBeFile && !fs.Exists(p) then Rejected(name, FileMissing(p))
      else if rules.mustBeFile && !fs.IsFile(p) then Rejected(name, NotAFile(p))
      else if rules.mustBeDir && !fs.Exists(p) then Rejected(name, DirMissing(p))
      else if rules.mustBeDir && !fs.IsDir(p) then Rejected(name, NotADir(p))
      else Rejected(name, PathInvalid)
  }

  // ---- the registry ------------------------------------------------------------

  /** A validator invocation: which built-in validator, with its keyword
      arguments. */
  datatype Check =
    | TypeCheck(expected: Option<TypeSpec>)
    | RangeCheck(minVal: Option<Num>, maxVal: Option<Num>)
    | LengthCheck(minLen: Option<int>, maxLen: Option<int>, length: Option<int>)
    | PathCheck(fs: Fs, rules: PathRules)

  /** `validator.validate(value, **kwargs)`. */
  function Validate(c: Check, v: Value): Result<bool, Exc> {
    match c
    case TypeCheck(expected) => TypeValidate(v, expected)
    case RangeCheck(lo, hi) => RangeValidate(v, lo, hi)
    case LengthCheck(lo, hi, exact) => Success(LengthValidate(v, lo, hi, exact))
    case PathCheck(fs, rules) => Success(PathValidate(fs, v, rules))
  }

  /** `validator.get_error_message(value, var_name, **kwargs)`. */
  function Describe(c: Check, v: Value, name: string): Result<Failure, Exc> {
    match c
    case TypeCheck(expected) => TypeFailure(v, name, expected)
    case RangeCheck(lo, hi) =>
      if IsNumber(v) then RangeFailure(v, name, lo, hi)
      else if lo.Some? then Failure(Compare(v, "<", lo.value).error)
      else if hi.Some? then Failure(Compare(v, ">", hi.value).error)
      else Success(Rejected(name, OutOfRange))
    case LengthCheck(lo, hi, exact) => Success(LengthFailure(v, name, lo, hi, exact))
    case PathCheck(fs, rules) => Success(PathFailure(fs, v, name, rules))
  }

  /** Whenever a validator rejects a value, its describer produces a failure
      message rather than raising. */
  lemma DescribeRejected(c: Check, v: Value, name: string)
    requires Validate(c, v) == Success(false)
    ensures Describe(c, v, name).Success?
    ensures Describe(c, v, name).value.name == name
  {
  }
}
