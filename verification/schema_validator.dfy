/** `SchemaValidator.validate_dict_schema`: walks a schema over a dict,
    checking each field's type and running its validator, filling defaults
    for absent optional fields, and in strict mode rejecting keys the schema
    does not name. */
module SchemaValidator {
  import opened Wrappers
  import opened PyText
  import opened PyValues
  import opened Errors
  import opened Messages
  import opened Validators
  import opened ValidationConfig
  import opened NameExtractor
  import opened ValidationEngine

  /** One schema entry. `validator` is caller code, passed in as a function;
      an absent `default` is None. */
  datatype FieldSpec = FieldSpec(
    fieldType: Option<TypeSpec>,
    required: bool,
    validator: Option<Value -> Result<Value, Exc>>,
    default: Value)

  type Schema = seq<(string, FieldSpec)>

  /** A schema is a dict: its keys are distinct. */
  predicate DistinctKeys(schema: Schema) {
    forall i, j :: 0 <= i < j < |schema| ==> schema[i].0 != schema[j].0
  }

  function SchemaKeys(schema: Schema): (r: seq<string>)
    ensures |r| == |schema|
    ensures forall i :: 0 <= i < |schema| ==> r[i] == schema[i].0
  {
    if schema == [] then [] else [schema[0].0] + SchemaKeys(schema[1..])
  }

  /** `data[key]` for a str key. */
  function GetItem(data: Value, key: string): Result<Value, Exc> {
    match data
    case PyDict(entries) =>
      var found := Lookup(entries, PyStr(key));
      if found.Some? then Success(found.value) else Failure(TypeError("KeyError: " + StrRepr(key)))
    case PyStr(_) => Failure(TypeError("string indices must be integers, not 'str'"))
    case _ => Failure(TypeError(TypeName(TypeOf(data)) + " indices must be integers or slices, not str"))
  }

  function RequiredMissing(cfg: Config, key: string): Exc {
    Raised(cfg.errorClass, "Required field '" + key + "' is missing")
  }

  /** Whether a present field gets past its type check: no type (or an empty
      list of types) is given, raising is off, or the value has the type. */
  predicate TypeStepPasses(cfg: Config, data: Value, key: string, spec: FieldSpec)
    requires data.PyDict? && PyStr(key) in DictKeys(data.entries)
  {
    || spec.fieldType.None? || !TypeSpecTruthy(spec.fieldType.value) || !cfg.raiseOnFailure
    || TypeValidate(Lookup(data.entries, PyStr(key)).value, spec.fieldType).value
  }

  /** One field: its checked value, None when it is left out of the result,
      or the exception that stops the walk. */
  function FieldResult(cfg: Config, site: FrameInfo, data: Value, key: string, spec: FieldSpec): (r: Result<Option<Value>, Exc>)
    ensures data.PyDict? && PyStr(key) !in DictKeys(data.entries) ==>
              r == (if spec.required then Failure(RequiredMissing(cfg, key))
                    else if spec.default != PyNone then Success(Some(spec.default))
                    else Success(None))
    ensures data.PyDict? && PyStr(key) in DictKeys(data.entries) && r.Success? ==> r.value.Some?
  {
    var present :- Contains(data, key);
    if present then
      var v :- GetItem(data, key);
      var checked :- if spec.fieldType.Some? && TypeSpecTruthy(spec.fieldType.value)
                     then AssertType(cfg, site, v, spec.fieldType, None) else Success(v);
      var validated :- if spec.validator.Some? then spec.validator.value(checked) else Success(checked);
      Success(Some(validated))
    else if spec.required then Failure(RequiredMissing(cfg, key))
    else if spec.default != PyNone then Success(Some(spec.default))
    else Success(None)
  }

  /** A present field is type-checked first (under raising, a value of the
      wrong type is the wrong-type failure); a value that gets past the type
      check is copied as it is, or replaced by what the field's validator
      returns, whose exception propagates. */
  lemma PresentFieldChecked(cfg: Config, site: FrameInfo, data: Value, key: string, spec: FieldSpec)
    ensures data.PyDict? && PyStr(key) in DictKeys(data.entries) ==>
              var v := Lookup(data.entries, PyStr(key)).value;
              var r := FieldResult(cfg, site, data, key, spec);
              && (!TypeStepPasses(cfg, data, key, spec) ==>
                    r == Failure(Fail(cfg, None, Rejected(SubjectName(cfg, site), WrongType(spec.fieldType.value, TypeOf(v))))))
              && (TypeStepPasses(cfg, data, key, spec) && spec.validator.None? ==> r == Success(Some(v)))
              && (TypeStepPasses(cfg, data, key, spec) && spec.validator.Some? ==>
                    var out := spec.validator.value(v);
                    && (r.Success? <==> out.Success?)
                    && (r.Success? ==> r.value == Some(out.value))
                    && (r.Failure? ==> r.error == out.error))
  {
  }

  /** The field loop, in schema order; the first failing field stops it. */
  function WalkFields(cfg: Config, site: FrameInfo, data: Value, schema: Schema): (r: Result<seq<(Value, Value)>, Exc>)
    ensures r.Success? <==> forall i :: 0 <= i < |schema| ==> FieldResult(cfg, site, data, schema[i].0, schema[i].1).Success?
    ensures r.Success? ==> forall e :: e in r.value ==> e.0.PyStr? && e.0.s in SchemaKeys(schema)
  {
    if schema == [] then Success([])
    else
      var here :- FieldResult(cfg, site, data, schema[0].0, schema[0].1);
      var rest := WalkFields(cfg, site, data, schema[1..]);
      assert forall i :: 1 <= i < |schema| ==> schema[i] == schema[1..][i - 1];
      assert forall k :: k in SchemaKeys(schema[1..]) ==> k in SchemaKeys(schema) by {
        assert SchemaKeys(schema) == [schema[0].0] + SchemaKeys(schema[1..]);
      }
      if rest.Failure? then Failure(rest.error)
      else
        Success(if here.Some? then [(PyStr(schema[0].0), here.value)] + rest.value else rest.value)
  }

  /** A failed walk fails with the first failing field's exception. */
  lemma {:induction false} WalkFieldsStopsAtFirstFailure(cfg: Config, site: FrameInfo, data: Value, schema: Schema)
    ensures var r := WalkFields(cfg, site, data, schema);
            r.Failure? ==> exists k :: && 0 <= k < |schema|
                                       && FieldResult(cfg, site, data, schema[k].0, schema[k].1) == Failure(r.error)
                                       && forall m :: 0 <= m < k ==> FieldResult(cfg, site, data, schema[m].0, schema[m].1).Success?
    decreases |schema|
  {
    var r := WalkFields(cfg, site, data, schema);
    if schema != [] && r.Failure? && FieldResult(cfg, site, data, schema[0].0, schema[0].1).Success? {
      WalkFieldsStopsAtFirstFailure(cfg, site, data, schema[1..]);
      var k :| && 0 <= k < |schema[1..]|
               && FieldResult(cfg, site, data, schema[1..][k].0, schema[1..][k].1) == Failure(r.error)
               && forall m :: 0 <= m < k ==> FieldResult(cfg, site, data, schema[1..][m].0, schema[1..][m].1).Success?;
      assert schema[k + 1] == schema[1..][k];
      assert forall m :: 1 <= m < k + 1 ==> schema[m] == schema[1..][m - 1];
    }
  }

  /** After a clean walk, the result holds, under each schema key, exactly
      what that field produced: its checked value, its default, or nothing. */
  lemma {:induction false} WalkFieldsEntries(cfg: Config, site: FrameInfo, data: Value, schema: Schema, i: int)
    requires DistinctKeys(schema) && WalkFields(cfg, site, data, schema).Success? && 0 <= i < |schema|
    ensures Lookup(WalkFields(cfg, site, data, schema).value, PyStr(schema[i].0))
            == FieldResult(cfg, site, data, schema[i].0, schema[i].1).value
    decreases |schema|
  {
    var here := FieldResult(cfg, site, data, schema[0].0, schema[0].1).value;
    var rest := WalkFields(cfg, site, data, schema[1..]).value;
    assert DistinctKeys(schema[1..]) by {
      forall a, b | 0 <= a < b < |schema[1..]| ensures schema[1..][a].0 != schema[1..][b].0 {
        assert schema[1..][a] == schema[a + 1] && schema[1..][b] == schema[b + 1];
      }
    }
    if i == 0 {
      if here.None? {
        HeadKeyNotInRest(schema, rest);
      }
    } else {
      assert schema[1..][i - 1] == schema[i];
      WalkFieldsEntries(cfg, site, data, schema[1..], i - 1);
      if here.Some? {
        var r := [(PyStr(schema[0].0), here.value)] + rest;
        assert PyStr(schema[0].0) != PyStr(schema[i].0);
        assert r[1..] == rest;
      }
    }
  }

  /** With distinct keys, the first schema key is not among the entries that
      only later fields produced. */
  lemma HeadKeyNotInRest(schema: Schema, rest: seq<(Value, Value)>)
    requires DistinctKeys(schema) && |schema| > 0
    requires forall e :: e in rest ==> e.0.PyStr? && e.0.s in SchemaKeys(schema[1..])
    ensures PyStr(schema[0].0) !in DictKeys(rest)
  {
    forall e | e in rest ensures e.0 != PyStr(schema[0].0) {
      var ks := SchemaKeys(schema[1..]);
      var m :| 0 <= m < |ks| && ks[m] == e.0.s;
      assert schema[1..][m] == schema[m + 1];
    }
  }

  /** The data's keys that the schema does not name, in data order. */
  function ExtraKeys(keys: seq<Value>, schema: Schema): (r: seq<Value>)
    ensures forall k :: k in r <==> k in keys && !(k.PyStr? && k.s in SchemaKeys(schema))
  {
    if keys == [] then []
    else
      var rest := ExtraKeys(keys[1..], schema);
      assert forall k :: k in keys <==> k == keys[0] || k in keys[1..];
      if keys[0].PyStr? && keys[0].s in SchemaKeys(schema) then rest else [keys[0]] + rest
  }

  /** `data.keys()`. */
  function KeysOf(data: Value): Result<seq<Value>, Exc> {
    if data.PyDict? then Success(DictKeys(data.entries))
    else Failure(AttributeError("'" + TypeName(TypeOf(data)) + "' object has no attribute 'keys'"))
  }

  function UnexpectedKeys(cfg: Config, extra: seq<Value>): Exc {
    Raised(cfg.errorClass, "Unexpected keys found: " + Repr(PyList(extra)))
  }

  /** `validate_dict_schema`: the data must pass `assert_mapping`, then the
      field loop runs, then (in strict mode) the extra-key check. */
  function ValidateDictSchema(cfg: Config, site: FrameInfo, data: Value, schema: Schema, strict: bool): (r: Result<Value, Exc>)
    ensures cfg.raiseOnFailure && !data.PyDict? ==> r.Failure? && r == AssertMapping(cfg, site, data, None, None)
    ensures r.Success? ==> r.value.PyDict?
    ensures r.Success? ==> forall e :: e in r.value.entries ==> e.0.PyStr? && e.0.s in SchemaKeys(schema)
    ensures r.Success? ==> WalkFields(cfg, site, data, schema) == Success(r.value.entries)
    ensures r.Success? && strict ==>
              data.PyDict? && forall k :: k in DictKeys(data.entries) ==> k.PyStr? && k.s in SchemaKeys(schema)
    ensures data.PyDict? && strict && WalkFields(cfg, site, data, schema).Success?
              && ExtraKeys(DictKeys(data.entries), schema) != [] ==>
              r == Failure(UnexpectedKeys(cfg, ExtraKeys(DictKeys(data.entries), schema)))
    ensures AssertMapping(cfg, site, data, None, None).Failure? ==> r == AssertMapping(cfg, site, data, None, None)
    ensures AssertMapping(cfg, site, data, None, None).Success? && WalkFields(cfg, site, data, schema).Failure? ==>
              r == Failure(WalkFields(cfg, site, data, schema).error)
    ensures AssertMapping(cfg, site, data, None, None).Success? && WalkFields(cfg, site, data, schema).Success?
              && (!strict || (data.PyDict? && ExtraKeys(DictKeys(data.entries), schema) == [])) ==>
              r == Success(PyDict(WalkFields(cfg, site, data, schema).value))
    ensures !data.PyDict? && strict && AssertMapping(cfg, site, data, None, None).Success?
              && WalkFields(cfg, site, data, schema).Success? ==>
              r.Failure? && r.error.AttributeError?
  {
    var d :- AssertMapping(cfg, site, data, None, None);
    var entries :- WalkFields(cfg, site, d, schema);
    if strict then
      var keys :- KeysOf(d);
      var extra := ExtraKeys(keys, schema);
      if extra != [] then Failure(UnexpectedKeys(cfg, extra)) else Success(PyDict(entries))
    else Success(PyDict(entries))
  }

  /** A missing required field is reported before extra keys: the field loop
      runs first. */
  lemma MissingRequiredBeforeExtraKeys(cfg: Config, site: FrameInfo, entries: seq<(Value, Value)>, schema: Schema, k: int, strict: bool)
    requires 0 <= k < |schema| && schema[k].1.required && PyStr(schema[k].0) !in DictKeys(entries)
    requires forall m :: 0 <= m < k ==> FieldResult(cfg, site, PyDict(entries), schema[m].0, schema[m].1).Success?
    ensures ValidateDictSchema(cfg, site, PyDict(entries), schema, strict) == Failure(RequiredMissing(cfg, schema[k].0))
  {
    var data := PyDict(entries);
    var w := WalkFields(cfg, site, data, schema);
    WalkFieldsStopsAtFirstFailure(cfg, site, data, schema);
    assert !FieldResult(cfg, site, data, schema[k].0, schema[k].1).Success?;
    var k' :| && 0 <= k' < |schema|
              && FieldResult(cfg, site, data, schema[k'].0, schema[k'].1) == Failure(w.error)
              && forall m :: 0 <= m < k' ==> FieldResult(cfg, site, data, schema[m].0, schema[m].1).Success?;
    assert k' == k;
  }

  /** Without strict mode, extra keys are dropped silently; every field is
      optional with no default, so an empty schema accepts any dict. */
  lemma LenientSchemaDropsExtras(cfg: Config, site: FrameInfo, entries: seq<(Value, Value)>)
    ensures ValidateDictSchema(cfg, site, PyDict(entries), [], false) == Success(PyDict([]))
    ensures entries != [] ==> ValidateDictSchema(cfg, site, PyDict(entries), [], true).Failure?
  {
    if entries != [] {
      assert entries[0].0 in DictKeys(entries);
    }
  }
}
