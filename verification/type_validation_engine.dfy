/** The validation engine: runs a validator, and turns a rejection into either
    `False` or an exception of the configured class depending on
    `raiseOnFailure`. The caller's frame, which only feeds the subject name,
    is passed in as `site`. */
module ValidationEngine {
  import opened Wrappers
  import opened PyText
  import opened PyValues
  import opened Errors
  import opened Messages
  import opened ValidationConfig
  import opened NameExtractor
  import opened Validators

  // ---- the engine record -------------------------------------------------------

  datatype ValidatorKind = TypeKind | RangeKind | LengthKind | PathKind

  /** A registry entry: one of the library's validators, or a caller-supplied
      validator object, which is foreign code. */
  datatype RegisteredValidator = Builtin(kind: ValidatorKind) | Custom(validatorName: string)

  datatype Engine = Engine(config: Config, validators: map<string, RegisteredValidator>)

  const DefaultValidators: map<string, RegisteredValidator> := map[
    "type" := Builtin(TypeKind), "range" := Builtin(RangeKind),
    "length" := Builtin(LengthKind), "path" := Builtin(PathKind)]

  /** `TypeValidationEngine(config)`: a missing config means the default one;
      the registry always starts with the four built-in validators. */
  function NewEngine(config: Option<Config>): (e: Engine)
    ensures config.Some? ==> e.config == config.value
    ensures config.None? ==> e.config == NewConfig()
    ensures e.validators == DefaultValidators
    ensures e.validators.Keys == {"type", "range", "length", "path"}
    ensures forall k :: k in e.validators ==> e.validators[k].Builtin?
  {
    Engine(config.GetOr(NewConfig()), DefaultValidators)
  }

  // ---- failure emission ----------------------------------------------------------

  /** `_get_variable_name`. */
  function SubjectName(cfg: Config, site: FrameInfo): (name: string)
    ensures !cfg.autoExtractNames ==> name == "value"
  {
    if cfg.autoExtractNames then ExtractFromFrame(site) else "value"
  }

  /** `custom_msg or generated`: a non-empty custom message wins. */
  function ChooseMessage(custom: Option<string>, generated: string): (r: string)
    ensures custom.Some? && custom.value != "" ==> r == custom.value
    ensures custom.None? || custom.value == "" ==> r == generated
  {
    if custom.Some? && custom.value != "" then custom.value else generated
  }

  /** The configured exception for a failure. */
  function Fail(cfg: Config, custom: Option<string>, f: Failure): Exc {
    Raised(cfg.errorClass, ChooseMessage(custom, Text(f)))
  }

  /** `_validate_with_engine`: the validator's verdict, except that a
      rejection under `raiseOnFailure` becomes the configured exception. */
  function ValidateWith(cfg: Config, site: FrameInfo, c: Check, v: Value, custom: Option<string>): (r: Result<bool, Exc>)
    ensures r.Success? <==> Validate(c, v).Success? && (Validate(c, v).value || !cfg.raiseOnFailure)
    ensures Validate(c, v).Failure? ==> r == Validate(c, v)
    ensures Validate(c, v) == Success(true) ==> r == Success(true)
    ensures Validate(c, v) == Success(false) && !cfg.raiseOnFailure ==> r == Success(false)
    ensures Validate(c, v) == Success(false) && cfg.raiseOnFailure ==>
              r == Failure(Fail(cfg, custom, Describe(c, v, SubjectName(cfg, site)).value))
  {
    var ok :- Validate(c, v);
    if !ok && cfg.raiseOnFailure then
      DescribeRejected(c, v, SubjectName(cfg, site));
      Failure(Fail(cfg, custom, Describe(c, v, SubjectName(cfg, site)).value))
    else Success(ok)
  }

  /** `_assert_with_engine`: validate, then hand back the value itself. */
  function AssertWith(cfg: Config, site: FrameInfo, c: Check, v: Value, custom: Option<string>): (r: Result<Value, Exc>)
    ensures r.Success? <==> ValidateWith(cfg, site, c, v, custom).Success?
    ensures r.Success? ==> r.value == v
    ensures r.Failure? ==> r.error == ValidateWith(cfg, site, c, v, custom).error
  {
    var _ :- ValidateWith(cfg, site, c, v, custom);
    Success(v)
  }

  // ---- guards ------------------------------------------------------------------

  /** What `isinstance` raises when its second argument is a list. */
  const IsinstanceArgError := TypeError("isinstance() arg 2 must be a type, a tuple of types, or a union")

  /** `is_type`: a plain `isinstance` test. Unlike `assert_type` it does not
      accept a list of classes: `isinstance` raises for one. */
  function IsType(v: Value, expected: TypeSpec): (r: Result<bool, Exc>)
    ensures r.Failure? <==> expected.TypeList?
    ensures r.Failure? ==> r.error == IsinstanceArgError
    ensures expected.OneType? ==> r == Success(IsSubclass(TypeOf(v), expected.t))
    ensures expected.TypeTuple? ==>
              r.Success? && (r.value <==> exists t :: t in expected.types && IsSubclass(TypeOf(v), t))
  {
    match expected
    case OneType(t) => Success(IsInstance(v, t))
    case TypeTuple(ts) => Success(AnyInstance(v, ts))
    case TypeList(_) => Failure(IsinstanceArgError)
  }

  /** `is_not_none`: only None is absent. */
  function IsNotNone(v: Value): (r: bool)
    ensures r <==> v != PyNone
  {
    !v.PyNone?
  }

  // ---- assertions ----------------------------------------------------------------

  /** `assert_type`. */
  function AssertType(cfg: Config, site: FrameInfo, v: Value, expected: Option<TypeSpec>, msg: Option<string>): (r: Result<Value, Exc>)
    ensures r.Success? ==> r.value == v
    ensures expected.None? ==> r == Failure(MissingExpectedType)
    ensures expected.Some? ==> (r.Success? <==> !cfg.raiseOnFailure || TypeValidate(v, expected).value)
    ensures expected.Some? && r.Failure? ==>
              r.error == Fail(cfg, msg, Rejected(SubjectName(cfg, site), WrongType(expected.value, TypeOf(v))))
  {
    AssertWith(cfg, site, TypeCheck(expected), v, msg)
  }

  /** `assert_not_none`: raises for None whatever `raiseOnFailure` says, and
      lets every other value through, falsy ones included. */
  function AssertNotNone(cfg: Config, site: FrameInfo, v: Value, msg: Option<string>): (r: Result<Value, Exc>)
    ensures r.Success? <==> v != PyNone
    ensures r.Success? ==> r.value == v
    ensures r.Failure? ==> r.error == Fail(cfg, msg, Rejected(SubjectName(cfg, site), IsNone))
  {
    if v.PyNone? then Failure(Fail(cfg, msg, Rejected(SubjectName(cfg, site), IsNone))) else Success(v)
  }

  /** The guard and the assertion agree: under a raising configuration a
      class or a tuple of classes passes `assert_type` exactly when `is_type`
      says yes; a list passes `assert_type` on membership but makes `is_type`
      raise; and a lenient configuration lets every value through
      `assert_type`. */
  lemma IsTypeAgreesWithAssertType(cfg: Config, site: FrameInfo, v: Value, expected: TypeSpec, msg: Option<string>)
    ensures cfg.raiseOnFailure && !expected.TypeList? ==>
              (IsType(v, expected) == Success(true) <==> AssertType(cfg, site, v, Some(expected), msg).Success?)
    ensures cfg.raiseOnFailure && expected.TypeList? ==>
              IsType(v, expected).Failure?
              && (AssertType(cfg, site, v, Some(expected), msg).Success? <==> IsType(v, TypeTuple(expected.types)) == Success(true))
    ensures !cfg.raiseOnFailure ==> AssertType(cfg, site, v, Some(expected), msg) == Success(v)
  {
  }

  /** `is_not_none` is true exactly when `assert_not_none` hands the value
      back. */
  lemma IsNotNoneAgreesWithAssertNotNone(cfg: Config, site: FrameInfo, v: Value, msg: Option<string>)
    ensures IsNotNone(v) <==> AssertNotNone(cfg, site, v, msg) == Success(v)
  {
  }

  /** Zero, the empty string and False are present values. */
  lemma FalsyValuesArePresent(cfg: Config, site: FrameInfo)
    ensures IsNotNone(PyInt(0)) && IsNotNone(PyStr("")) && IsNotNone(PyBool(false))
    ensures AssertNotNone(cfg, site, PyInt(0), None) == Success(PyInt(0))
    ensures AssertNotNone(cfg, site, PyStr(""), None) == Success(PyStr(""))
    ensures AssertNotNone(cfg, site, PyBool(false), None) == Success(PyBool(false))
    ensures AssertNotNone(cfg, site, PyNone, None).Failure?
  {
  }

  const NumericTypes := TypeTuple([IntT, FloatT])
  const StringTypes := TypeTuple([StrT, BytesT])
  const SequenceTypes := TypeTuple([ListT, TupleT])

  /** The composite type checks, decided. */
  lemma NumericTypesCheck(v: Value)
    ensures TypeValidate(v, Some(NumericTypes)) == Success(IsNumber(v))
  {
    assert AnyInstance(v, [IntT, FloatT]) == (IsInstance(v, IntT) || AnyInstance(v, [FloatT]));
  }

  lemma StringTypesCheck(v: Value)
    ensures TypeValidate(v, Some(StringTypes)) == Success(v.PyStr? || v.PyBytes?)
  {
    assert AnyInstance(v, [StrT, BytesT]) == (IsInstance(v, StrT) || AnyInstance(v, [BytesT]));
  }

  lemma SequenceTypesCheck(v: Value)
    ensures TypeValidate(v, Some(SequenceTypes)) == Success(v.PyList? || v.PyTuple?)
  {
    assert AnyInstance(v, [ListT, TupleT]) == (IsInstance(v, ListT) || AnyInstance(v, [TupleT]));
  }

  lemma StrTypeCheck(v: Value)
    ensures TypeValidate(v, Some(OneType(StrT))) == Success(v.PyStr?)
    ensures TypeValidate(v, Some(OneType(DictT))) == Success(v.PyDict?)
  {
  }

  /** The type step of a composite assertion: the value back when it has one
      of the types or raising is off, else the wrong-type failure. */
  lemma TypeStep(cfg: Config, site: FrameInfo, spec: TypeSpec, v: Value, msg: Option<string>)
    ensures AssertWith(cfg, site, TypeCheck(Some(spec)), v, msg)
            == if TypeValidate(v, Some(spec)).value || !cfg.raiseOnFailure then Success(v)
               else Failure(Fail(cfg, msg, Rejected(SubjectName(cfg, site), WrongType(spec, TypeOf(v)))))
  {
  }

  /** The secondary check of a composite assertion, run only when one of
      its bounds is given. */
  function CheckIfBounded(cfg: Config, site: FrameInfo, c: Check, v: Value, msg: Option<string>, bounded: bool): (r: Result<Value, Exc>)
    ensures r.Success? ==> r.value == v
    ensures !bounded ==> r == Success(v)
    ensures bounded ==> (r.Success? <==> Validate(c, v).Success? && (Validate(c, v).value || !cfg.raiseOnFailure))
    ensures bounded && r.Failure? ==> r.error == ValidateWith(cfg, site, c, v, msg).error
  {
    if bounded then AssertWith(cfg, site, c, v, msg) else Success(v)
  }

  /** `assert_numeric`: the type first; the range only when a bound is given.
      A value failing both reports the type failure. */
  function AssertNumeric(cfg: Config, site: FrameInfo, v: Value, minVal: Option<Num>, maxVal: Option<Num>,
                         msg: Option<string>): (r: Result<Value, Exc>)
    ensures r.Success? ==> r.value == v
    ensures cfg.raiseOnFailure ==> (r.Success? <==> IsNumber(v) && AtLeast(v, minVal) && AtMost(v, maxVal))
    ensures cfg.raiseOnFailure && !IsNumber(v) ==>
              r == Failure(Fail(cfg, msg, Rejected(SubjectName(cfg, site), WrongType(NumericTypes, TypeOf(v)))))
    ensures cfg.raiseOnFailure && IsNumber(v) && !AtLeast(v, minVal) ==>
              r == Failure(Fail(cfg, msg, Rejected(SubjectName(cfg, site), BelowMin(minVal.value, v))))
    ensures cfg.raiseOnFailure && IsNumber(v) && AtLeast(v, minVal) && !AtMost(v, maxVal) ==>
              r == Failure(Fail(cfg, msg, Rejected(SubjectName(cfg, site), AboveMax(maxVal.value, v))))
    ensures !cfg.raiseOnFailure ==> (r.Success? <==> IsNumber(v) || (minVal.None? && maxVal.None?))
    ensures !cfg.raiseOnFailure && r.Failure? ==> r.error.TypeError?
  {
    NumericTypesCheck(v);
    TypeStep(cfg, site, NumericTypes, v, msg);
    var _ :- AssertWith(cfg, site, TypeCheck(Some(NumericTypes)), v, msg);
    CheckIfBounded(cfg, site, RangeCheck(minVal, maxVal), v, msg, minVal.Some? || maxVal.Some?)
  }

  /** `assert_string_like`: str or bytes first, then the length bounds when
      either is given. */
  function AssertStringLike(cfg: Config, site: FrameInfo, v: Value, minLen: Option<int>, maxLen: Option<int>,
                            msg: Option<string>): (r: Result<Value, Exc>)
    ensures r.Success? ==> r.value == v
    ensures cfg.raiseOnFailure ==>
              (r.Success? <==> (v.PyStr? || v.PyBytes?) && LengthOk(Len(v).value, minLen, maxLen, None))
    ensures cfg.raiseOnFailure && !v.PyStr? && !v.PyBytes? ==>
              r == Failure(Fail(cfg, msg, Rejected(SubjectName(cfg, site), WrongType(StringTypes, TypeOf(v)))))
    ensures !cfg.raiseOnFailure ==> r == Success(v)
  {
    StringTypesCheck(v);
    TypeStep(cfg, site, StringTypes, v, msg);
    var _ :- AssertWith(cfg, site, TypeCheck(Some(StringTypes)), v, msg);
    CheckIfBounded(cfg, site, LengthCheck(minLen, maxLen, None), v, msg, minLen.Some? || maxLen.Some?)
  }

  /** `assert_sequence`: list or tuple first, then the length constraints
      when any is given. */
  function AssertSequence(cfg: Config, site: FrameInfo, v: Value, minLen: Option<int>, maxLen: Option<int>,
                          length: Option<int>, msg: Option<string>): (r: Result<Value, Exc>)
    ensures r.Success? ==> r.value == v
    ensures cfg.raiseOnFailure ==>
              (r.Success? <==> (v.PyList? || v.PyTuple?) && LengthOk(|v.items|, minLen, maxLen, length))
    ensures cfg.raiseOnFailure && !v.PyList? && !v.PyTuple? ==>
              r == Failure(Fail(cfg, msg, Rejected(SubjectName(cfg, site), WrongType(SequenceTypes, TypeOf(v)))))
    ensures !cfg.raiseOnFailure ==> r == Success(v)
  {
    SequenceTypesCheck(v);
    TypeStep(cfg, site, SequenceTypes, v, msg);
    assert v.PyList? || v.PyTuple? ==> Len(v) == Some(|v.items|);
    var _ :- AssertWith(cfg, site, TypeCheck(Some(SequenceTypes)), v, msg);
    CheckIfBounded(cfg, site, LengthCheck(minLen, maxLen, length), v, msg, minLen.Some? || maxLen.Some? || length.Some?)
  }

  /** `assert_range`. */
  function AssertRange(cfg: Config, site: FrameInfo, v: Value, minVal: Option<Num>, maxVal: Option<Num>,
                       msg: Option<string>): (r: Result<Value, Exc>)
    ensures r.Success? ==> r.value == v
    ensures IsNumber(v) ==> (r.Success? <==> !cfg.raiseOnFailure || (AtLeast(v, minVal) && AtMost(v, maxVal)))
    ensures !IsNumber(v) ==> (r.Success? <==> minVal.None? && maxVal.None?)
  {
    AssertWith(cfg, site, RangeCheck(minVal, maxVal), v, msg)
  }

  /** `assert_length`: only the bounds; the exact length is not offered. */
  function AssertLength(cfg: Config, site: FrameInfo, v: Value, minLen: Option<int>, maxLen: Option<int>,
                        msg: Option<string>): (r: Result<Value, Exc>)
    ensures r.Success? ==> r.value == v
    ensures r.Success? <==> !cfg.raiseOnFailure || (Len(v).Some? && LengthOk(Len(v).value, minLen, maxLen, None))
  {
    AssertWith(cfg, site, LengthCheck(minLen, maxLen, None), v, msg)
  }

  // ---- mappings ----------------------------------------------------------------

  /** `required_keys`: a single key or a list of keys. */
  datatype RequiredKeys = OneKey(key: string) | KeyList(keys: seq<string>) {
    function Keys(): seq<string> {
      if OneKey? then [key] else keys
    }
  }

  /** Python's `key in container` for a str key. */
  function Contains(container: Value, key: string): Result<bool, Exc> {
    match container
    case PyDict(entries) => Success(PyStr(key) in DictKeys(entries))
    case PyStr(s) => Success(IsSubstring(key, s))
    case PyList(items) => Success(PyStr(key) in items)
    case PyTuple(items) => Success(PyStr(key) in items)
    case PyBytes(_) => Failure(TypeError("a bytes-like object is required, not 'str'"))
    case _ => Failure(TypeError("argument of type '" + TypeName(TypeOf(container)) + "' is not iterable"))
  }

  /** `[k for k in keys if k not in container]`. */
  function MissingFrom(container: Value, keys: seq<string>): (r: Result<seq<string>, Exc>)
    ensures container.PyDict? ==> r.Success?
  {
    if keys == [] then Success([])
    else
      var present :- Contains(container, keys[0]);
      var rest :- MissingFrom(container, keys[1..]);
      Success(if present then rest else [keys[0]] + rest)
  }

  /** For a dict, the missing keys are the required keys it lacks, in the
      order they were given, each as often as it was given. */
  lemma {:induction false} DictMissingKeys(entries: seq<(Value, Value)>, keys: seq<string>)
    ensures var r := MissingFrom(PyDict(entries), keys).value;
            && (forall k :: k in r <==> k in keys && PyStr(k) !in DictKeys(entries))
            && (forall k :: multiset(r)[k] == if PyStr(k) in DictKeys(entries) then 0 else multiset(keys)[k])
            && IsSubsequence(r, keys)
    decreases |keys|
  {
    if keys != [] {
      DictMissingKeys(entries, keys[1..]);
      var r := MissingFrom(PyDict(entries), keys).value;
      var rest := MissingFrom(PyDict(entries), keys[1..]).value;
      assert forall k :: k in keys <==> k == keys[0] || k in keys[1..];
      assert keys == [keys[0]] + keys[1..];
      if PyStr(keys[0]) !in DictKeys(entries) {
        assert r == [keys[0]] + rest;
        assert r[1..] == rest;
      } else {
        assert r == rest;
        if rest != [] {
          assert rest[0] in rest;
          assert rest[0] != keys[0];
        }
      }
    }
  }

  /** `assert_mapping`: the dict type check follows `raiseOnFailure`; the
      required-key check always raises, naming one missing key or listing
      several. */
  function AssertMapping(cfg: Config, site: FrameInfo, v: Value, required: Option<RequiredKeys>,
                         msg: Option<string>): (r: Result<Value, Exc>)
    ensures r.Success? ==> r.value == v
    ensures cfg.raiseOnFailure && !v.PyDict? ==>
              r == Failure(Fail(cfg, msg, Rejected(SubjectName(cfg, site), WrongType(OneType(DictT), TypeOf(v)))))
    ensures v.PyDict? ==>
              var missing := if required.None? then [] else MissingFrom(v, required.value.Keys()).value;
              && (r.Success? <==> missing == [])
              && (|missing| == 1 ==> r == Failure(Fail(cfg, msg, Rejected(SubjectName(cfg, site), MissingKey(missing[0])))))
              && (|missing| > 1 ==> r == Failure(Fail(cfg, msg, Rejected(SubjectName(cfg, site), MissingKeys(missing)))))
  {
    StrTypeCheck(v);
    var _ :- AssertWith(cfg, site, TypeCheck(Some(OneType(DictT))), v, msg);
    if required.None? then Success(v)
    else
      var name := SubjectName(cfg, site);
      var missing :- MissingFrom(v, required.value.Keys());
      if missing == [] then Success(v)
      else if |missing| == 1 then Failure(Fail(cfg, msg, Rejected(name, MissingKey(missing[0]))))
      else Failure(Fail(cfg, msg, Rejected(name, MissingKeys(missing))))
  }

  /** The required-key check reports exactly the absent keys, in order. */
  lemma MissingKeysExamples(cfg: Config, site: FrameInfo)
    ensures AssertMapping(cfg, site, PyDict([(PyStr("a"), PyInt(1))]), Some(KeyList(["a", "b"])), None)
            == Failure(Fail(cfg, None, Rejected(SubjectName(cfg, site), MissingKey("b"))))
    ensures AssertMapping(cfg, site, PyDict([]), Some(KeyList(["a", "b"])), None)
            == Failure(Fail(cfg, None, Rejected(SubjectName(cfg, site), MissingKeys(["a", "b"]))))
    ensures AssertMapping(cfg, site, PyDict([(PyStr("a"), PyInt(1))]), Some(OneKey("a")), None)
            == Success(PyDict([(PyStr("a"), PyInt(1))]))
  {
    var d := PyDict([(PyStr("a"), PyInt(1))]);
    var e := PyDict([]);
    var ab, b := ["a", "b"], ["b"];
    assert DictKeys(d.entries) == [PyStr("a")];
    assert PyStr("b") != PyStr("a") by { assert "b"[0] != "a"[0]; }
    assert ab[1..] == b && b[1..] == [] && ["a"][1..] == [];
    assert MissingFrom(d, b[1..]) == Success([]);
    assert Contains(d, "b") == Success(false);
    assert [b[0]] + [] == b && [ab[0]] + b == ab;
    assert MissingFrom(d, b) == Success(b);
    assert MissingFrom(d, ab) == Success(b);
    assert MissingFrom(d, ["a"]) == Success([]);
    assert MissingFrom(e, b) == Success(b);
    assert MissingFrom(e, ab) == Success(ab);
  }

  // ---- paths -------------------------------------------------------------------

  /** The path-validator step of `assert_path`, on the converted path. */
  lemma PathStep(cfg: Config, site: FrameInfo, fs: Fs, p: string, rules: PathRules, msg: Option<string>)
    ensures ValidateWith(cfg, site, PathCheck(fs, rules), PyPath(p), msg)
            == if PathRulesHold(fs, p, rules) || !cfg.raiseOnFailure then Success(PathRulesHold(fs, p, rules))
               else Failure(Fail(cfg, msg, PathFailure(fs, PyPath(p), SubjectName(cfg, site), rules)))
  {
  }

  /** `assert_path`, without parent-directory creation: conversion and
      emptiness failures raise whatever `raiseOnFailure` says; the existence
      and kind rules follow it. The result is the converted path. */
  function AssertPath(cfg: Config, site: FrameInfo, fs: Fs, v: Value, rules: PathRules,
                      msg: Option<string>): (r: Result<Value, Exc>)
    ensures r.Success? ==> ConvertToPath(v).Success? && r.value == PyPath(ConvertToPath(v).value)
    ensures v.PyPath? && r.Success? ==> r.value == v
    ensures ConvertToPath(v).Failure? ==>
              r == Failure(Fail(cfg, msg, Rejected(SubjectName(cfg, site), NotConvertible(ConvertToPath(v).error.msg))))
    ensures IsEmptyPathText(v) ==> r == Failure(Fail(cfg, msg, Rejected(SubjectName(cfg, site), EmptyPath)))
    ensures ConvertToPath(v).Success? && !IsEmptyPathText(v) ==>
              var p := ConvertToPath(v).value;
              && (r.Success? <==> !cfg.raiseOnFailure || PathRulesHold(fs, p, rules))
              && (r.Failure? ==> r.error == Fail(cfg, msg, PathFailure(fs, PyPath(p), SubjectName(cfg, site), rules)))
  {
    var name := SubjectName(cfg, site);
    match ConvertToPath(v)
    case Failure(e) => Failure(Fail(cfg, msg, Rejected(name, NotConvertible(e.msg))))
    case Success(p) =>
      if IsEmptyPathText(v) then Failure(Fail(cfg, msg, Rejected(name, EmptyPath)))
      else
        PathStep(cfg, site, fs, p, rules, msg);
        var _ :- ValidateWith(cfg, site, PathCheck(fs, rules), PyPath(p), msg);
        Success(PyPath(p))
  }

  /** `assert_path` as the source writes it: a bytes value goes through
      `Path(str(value))` and so becomes the path text `b'...'`; every other
      value is handled as in `AssertPath`. */
  function AssertPathAsWritten(cfg: Config, site: FrameInfo, fs: Fs, v: Value, rules: PathRules,
                               msg: Option<string>): (r: Result<Value, Exc>)
    ensures !v.PyBytes? ==> r == AssertPath(cfg, site, fs, v, rules, msg)
    ensures v.PyBytes? && v.bytes == [] ==> r == Failure(Fail(cfg, msg, Rejected(SubjectName(cfg, site), EmptyPath)))
    ensures v.PyBytes? && v.bytes != [] ==>
              var p := ConvertToPathAsWritten(v).value;
              && (r.Success? <==> !cfg.raiseOnFailure || PathRulesHold(fs, p, rules))
              && (r.Success? ==> r.value == PyPath(p))
  {
    if !v.PyBytes? then AssertPath(cfg, site, fs, v, rules, msg)
    else if v.bytes == [] then Failure(Fail(cfg, msg, Rejected(SubjectName(cfg, site), EmptyPath)))
    else
      var p := ConvertToPathAsWritten(v).value;
      PathStep(cfg, site, fs, p, rules, msg);
      var _ :- ValidateWith(cfg, site, PathCheck(fs, rules), PyPath(p), msg);
      Success(PyPath(p))
  }

  /** The bytes path `b"/tmp"` of an existing directory passes the corrected
      assertion, but the assertion as written looks for a path named
      `b'/tmp'` and fails. */
  lemma BytesAssertPathAsWrittenFails(cfg: Config, site: FrameInfo, fs: Fs)
    requires cfg.raiseOnFailure && "/tmp" in fs.dirs && "b'/tmp'" !in fs.dirs && "b'/tmp'" !in fs.files
    ensures AssertPath(cfg, site, fs, PyBytes([47, 116, 109, 112]), PathRules(Some(true), false, true), None)
            == Success(PyPath("/tmp"))
    ensures AssertPathAsWritten(cfg, site, fs, PyBytes([47, 116, 109, 112]), PathRules(Some(true), false, true), None).Failure?
  {
    BytesPathAsWrittenIsMangled();
  }

  /** An empty path is rejected before any existence rule is looked at; an
      existing directory passes as a directory and fails as a file. */
  lemma PathExamples(cfg: Config, site: FrameInfo, fs: Fs, dir: string, rules: PathRules)
    requires cfg.raiseOnFailure && dir in fs.dirs && dir !in fs.files && !IsBlank(dir)
    ensures AssertPath(cfg, site, fs, PyStr(""), rules, None) == Failure(Fail(cfg, None, Rejected(SubjectName(cfg, site), EmptyPath)))
    ensures AssertPath(cfg, site, fs, PyStr(dir), PathRules(None, false, true), None) == Success(PyPath(dir))
    ensures AssertPath(cfg, site, fs, PyStr(dir), PathRules(None, true, false), None).Failure?
  {
  }

  /** Asserting a path twice gives the same path object: the first call's
      result passes the same rules again unchanged. */
  lemma AssertPathIdempotent(cfg: Config, site: FrameInfo, fs: Fs, v: Value, rules: PathRules, msg: Option<string>)
    requires AssertPath(cfg, site, fs, v, rules, msg).Success?
    ensures var p := AssertPath(cfg, site, fs, v, rules, msg).value;
            AssertPath(cfg, site, fs, p, rules, msg) == Success(p)
  {
  }

  // ---- the subject name is cosmetic ----------------------------------------------

  /** Two outcomes that agree on everything but message text. */
  predicate SameOutcome<T(==)>(a: Result<T, Exc>, b: Result<T, Exc>) {
    && (a.Success? <==> b.Success?)
    && (a.Success? ==> a.value == b.value)
    && (a.Failure? ==> (a.error.Raised? <==> b.error.Raised?)
                       && (a.error.Raised? ==> a.error.cls == b.error.cls))
  }

  /** Where the call came from changes at most the message text: never
      whether a check passes or which exception it raises. With name
      extraction off, not even the text. */
  lemma SubjectNameIsCosmetic(cfg: Config, s1: FrameInfo, s2: FrameInfo, c: Check, v: Value, msg: Option<string>)
    ensures SameOutcome(ValidateWith(cfg, s1, c, v, msg), ValidateWith(cfg, s2, c, v, msg))
    ensures !cfg.autoExtractNames ==> ValidateWith(cfg, s1, c, v, msg) == ValidateWith(cfg, s2, c, v, msg)
  {
  }

  lemma PathSubjectNameIsCosmetic(cfg: Config, s1: FrameInfo, s2: FrameInfo, fs: Fs, v: Value,
                                  rules: PathRules, msg: Option<string>)
    ensures SameOutcome(AssertPath(cfg, s1, fs, v, rules, msg), AssertPath(cfg, s2, fs, v, rules, msg))
  {
    if ConvertToPath(v).Success? && !IsEmptyPathText(v) {
      SubjectNameIsCosmetic(cfg, s1, s2, PathCheck(fs, rules), PyPath(ConvertToPath(v).value), msg);
    }
  }

  lemma MappingSubjectNameIsCosmetic(cfg: Config, s1: FrameInfo, s2: FrameInfo, v: Value,
                                     required: Option<RequiredKeys>, msg: Option<string>)
    ensures SameOutcome(AssertMapping(cfg, s1, v, required, msg), AssertMapping(cfg, s2, v, required, msg))
  {
    SubjectNameIsCosmetic(cfg, s1, s2, TypeCheck(Some(OneType(DictT))), v, msg);
  }

  /** With `raiseOnFailure` off, a validation either passes or returns False:
      the configured exception is never raised. */
  lemma LenientValidationNeverRaises(cfg: Config, site: FrameInfo, c: Check, v: Value, msg: Option<string>)
    requires !cfg.raiseOnFailure
    ensures ValidateWith(cfg, site, c, v, msg).Success? <==> Validate(c, v).Success?
    ensures ValidateWith(cfg, site, c, v, msg).Failure? ==> !ValidateWith(cfg, site, c, v, msg).error.Raised?
  {
  }
}
