/** Python runtime values and types as the validators see them: a closed set
    of builtin types, `pathlib` paths and opaque instances of user classes
    (named by module and class). */
module PyValues {
  import opened Wrappers
  import opened PyText

  /** Python classes. `bool` subclasses `int`; a concrete path is a
      `PosixPath`, which subclasses `Path`; every class subclasses `object`. */
  datatype PyType =
    | ObjectT | NoneTypeT | BoolT | IntT | FloatT | StrT | BytesT
    | ListT | TupleT | DictT | PathT | PosixPathT
    | ClassT(pkg: string, name: string)

  /** Python values. Floats are exact reals (no NaN or infinities); a dict is
      its entries in insertion order. */
  datatype Value =
    | PyNone
    | PyBool(b: bool)
    | PyInt(i: int)
    | PyFloat(x: real)
    | PyStr(s: string)
    | PyBytes(bytes: seq<byte>)
    | PyList(items: seq<Value>)
    | PyTuple(items: seq<Value>)
    | PyDict(entries: seq<(Value, Value)>)
    | PyPath(path: string)
    | PyObject(pkg: string, className: string)

  /** The numeric bounds accepted by the range checks: `int | float`. */
  datatype Num = IntNum(i: int) | FloatNum(x: real) {
    function Real(): real {
      match this
      case IntNum(i) => i as real
      case FloatNum(x) => x
    }
    function Text(): string {
      match this
      case IntNum(i) => IntText(i)
      case FloatNum(x) => FloatText(x)
    }
    function TypeName(): string {
      if IntNum? then "int" else "float"
    }
  }

  /** What a caller passes as `expected_type`: a class, a list of classes, or
      a tuple of classes. */
  datatype TypeSpec = OneType(t: PyType) | TypeList(types: seq<PyType>) | TypeTuple(types: seq<PyType>)

  /** `type(v)`. */
  function TypeOf(v: Value): PyType {
    match v
    case PyNone => NoneTypeT
    case PyBool(_) => BoolT
    case PyInt(_) => IntT
    case PyFloat(_) => FloatT
    case PyStr(_) => StrT
    case PyBytes(_) => BytesT
    case PyList(_) => ListT
    case PyTuple(_) => TupleT
    case PyDict(_) => DictT
    case PyPath(_) => PosixPathT
    case PyObject(m, n) => ClassT(m, n)
  }

  /** `issubclass(a, b)`. */
  predicate IsSubclass(a: PyType, b: PyType) {
    a == b || b == ObjectT || (a == BoolT && b == IntT) || (a == PosixPathT && b == PathT)
  }

  /** `isinstance(v, t)`. */
  predicate IsInstance(v: Value, t: PyType) {
    IsSubclass(TypeOf(v), t)
  }

  /** `t.__name__`. */
  function TypeName(t: PyType): string {
    match t
    case ObjectT => "object"
    case NoneTypeT => "NoneType"
    case BoolT => "bool"
    case IntT => "int"
    case FloatT => "float"
    case StrT => "str"
    case BytesT => "bytes"
    case ListT => "list"
    case TupleT => "tuple"
    case DictT => "dict"
    case PathT => "Path"
    case PosixPathT => "PosixPath"
    case ClassT(_, n) => n
  }

  /** `str(t)`: `<class 'int'>`, `<class 'pathlib.Path'>`. */
  function ClassRepr(t: PyType): string {
    match t
    case PathT => "<class 'pathlib.Path'>"
    case PosixPathT => "<class 'pathlib.PosixPath'>"
    case ClassT(m, n) => "<class '" + m + "." + n + "'>"
    case _ => "<class '" + TypeName(t) + "'>"
  }

  function ClassReprs(ts: seq<PyType>): (r: seq<string>)
    ensures |r| == |ts|
  {
    if ts == [] then [] else [ClassRepr(ts[0])] + ClassReprs(ts[1..])
  }

  function TypeNames(ts: seq<PyType>): (r: seq<string>)
    ensures |r| == |ts|
    ensures forall i :: 0 <= i < |ts| ==> r[i] == TypeName(ts[i])
  {
    if ts == [] then [] else [TypeName(ts[0])] + TypeNames(ts[1..])
  }

  /** `str(tup)` for a tuple of classes: `(<class 'int'>, <class 'float'>)`. */
  function TypeTupleRepr(ts: seq<PyType>): string {
    if |ts| == 1 then "(" + ClassRepr(ts[0]) + ",)"
    else "(" + Join(ClassReprs(ts), ", ") + ")"
  }

  /** `bool(expected_type)`: a class is truthy, an empty list or tuple is not. */
  predicate TypeSpecTruthy(spec: TypeSpec) {
    spec.OneType? || |spec.types| > 0
  }

  /** `isinstance(v, (int, float))`: bools count as ints. */
  predicate IsNumber(v: Value) {
    v.PyBool? || v.PyInt? || v.PyFloat?
  }

  function NumericValue(v: Value): real
    requires IsNumber(v)
  {
    match v
    case PyBool(b) => if b then 1.0 else 0.0
    case PyInt(i) => i as real
    case PyFloat(x) => x
  }

  /** `len(v)`, or None where `len` raises TypeError. */
  function Len(v: Value): Option<nat> {
    match v
    case PyStr(s) => Some(|s|)
    case PyBytes(bs) => Some(|bs|)
    case PyList(items) => Some(|items|)
    case PyTuple(items) => Some(|items|)
    case PyDict(entries) => Some(|entries|)
    case _ => None
  }

  /** The keys of a dict, in insertion order. */
  function DictKeys(entries: seq<(Value, Value)>): (r: seq<Value>)
    ensures |r| == |entries|
    ensures forall i :: 0 <= i < |entries| ==> r[i] == entries[i].0
  {
    if entries == [] then [] else [entries[0].0] + DictKeys(entries[1..])
  }

  /** `d[k]`: the value stored under `k`, looked up front to back. */
  function Lookup(entries: seq<(Value, Value)>, k: Value): (r: Option<Value>)
    ensures r.None? <==> k !in DictKeys(entries)
    ensures r.Some? ==> (k, r.value) in entries
  {
    if entries == [] then None
    else if entries[0].0 == k then Some(entries[0].1)
    else
      var r := Lookup(entries[1..], k);
      assert DictKeys(entries) == [entries[0].0] + DictKeys(entries[1..]);
      r
  }

  /** `repr(v)`. */
  function Repr(v: Value): string
    decreases v, 1
  {
    match v
    case PyNone => "None"
    case PyBool(b) => if b then "True" else "False"
    case PyInt(i) => IntText(i)
    case PyFloat(x) => FloatText(x)
    case PyStr(s) => StrRepr(s)
    case PyBytes(bs) => BytesRepr(bs)
    case PyList(items) => "[" + ReprItems(v, items) + "]"
    case PyTuple(items) =>
      if |items| == 1 then "(" + Repr(items[0]) + ",)" else "(" + ReprItems(v, items) + ")"
    case PyDict(entries) => "{" + ReprEntries(v, entries) + "}"
    case PyPath(p) => "PosixPath(" + StrRepr(p) + ")"
    case PyObject(m, n) => "<" + m + "." + n + " object>"
  }

  function ReprItems(ghost parent: Value, items: seq<Value>): string
    requires forall x :: x in items ==> x < parent
    decreases parent, 0, |items|
  {
    if items == [] then ""
    else
      assert items[0] in items;
      assert forall x :: x in items[1..] ==> x in items;
      if |items| == 1 then Repr(items[0])
      else Repr(items[0]) + ", " + ReprItems(parent, items[1..])
  }

  function ReprEntries(ghost parent: Value, entries: seq<(Value, Value)>): string
    requires forall i :: 0 <= i < |entries| ==> entries[i].0 < parent && entries[i].1 < parent
    decreases parent, 0, |entries|
  {
    if entries == [] then ""
    else
      var item := Repr(entries[0].0) + ": " + Repr(entries[0].1);
      if |entries| == 1 then item else item + ", " + ReprEntries(parent, entries[1..])
  }

  /** `str(v)` as an f-string renders it. */
  function Display(v: Value): string {
    match v
    case PyStr(s) => s
    case PyPath(p) => p
    case _ => Repr(v)
  }
}
