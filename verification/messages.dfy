/** Validation failures as data, and the one function that renders each as the
    library's message text. Every failure names its subject. */
module Messages {
  import opened PyText
  import opened PyValues

  /** What was wrong, without the subject. */
  datatype Problem =
      // type validator
    | WrongType(expected: TypeSpec, given: PyType)
      // range validator, in reporting order
    | BelowMin(bound: Num, got: Value)
    | AboveMax(bound: Num, got: Value)
    | OutOfRange
      // length validator, in reporting order
    | NoLength(given: PyType)
    | LengthNotExact(want: int, length: nat)
    | LengthBelow(want: int, length: nat)
    | LengthAbove(want: int, length: nat)
    | InvalidLength
      // path validator and path assertion, in reporting order
    | NotConvertible(reason: string)
    | EmptyPath
    | PathMissing(path: string)
    | PathPresent(path: string)
    | FileMissing(path: string)
    | NotAFile(path: string)
    | DirMissing(path: string)
    | NotADir(path: string)
    | PathInvalid
      // special-cased engine and pattern checks
    | MissingKey(key: string)
    | MissingKeys(keys: seq<string>)
    | IsNone
    | BlankString

  /** A failure: the subject's name and what was wrong with it. */
  datatype Failure = Rejected(name: string, problem: Problem)

  function Quoted(s: string): string {
    "'" + s + "'"
  }

  /** The message text. Every message opens with the quoted subject name, which
      is what the decorator later rewrites; the rest depends only on the
      problem. */
  function Text(f: Failure): (r: string)
    ensures |r| > |f.name| + 2 && r[..|f.name| + 2] == Quoted(f.name)
    ensures r[|f.name| + 2..] == Detail(f.problem)
  {
    var n := Quoted(f.name);
    assert (n + Detail(f.problem))[..|f.name| + 2] == n;
    n + Detail(f.problem)
  }

  /** What follows the quoted subject name. */
  function Detail(p: Problem): (r: string)
    ensures |r| > 0
  {
    match p
      case WrongType(OneType(t), given) =>
        " must be of type " + Quoted(TypeName(t)) + ", but got " + Quoted(TypeName(given))
      case WrongType(TypeTuple(ts), given) =>
        " must be of type " + Quoted(TypeTupleRepr(ts)) + ", but got " + Quoted(TypeName(given))
      case WrongType(TypeList(ts), given) =>
        " must be one of types " + StrListRepr(TypeNames(ts)) + ", but got " + Quoted(TypeName(given))
      case BelowMin(b, v) => " must be >= " + b.Text() + ", but got " + Display(v)
      case AboveMax(b, v) => " must be <= " + b.Text() + ", but got " + Display(v)
      case OutOfRange => " is out of valid range"
      case NoLength(t) => " must have a length, but got " + TypeName(t)
      case LengthNotExact(w, g) => " must have length = " + IntText(w) + ", but got " + IntText(g)
      case LengthBelow(w, g) => " must have length >= " + IntText(w) + ", but got " + IntText(g)
      case LengthAbove(w, g) => " must have length <= " + IntText(w) + ", but got " + IntText(g)
      case InvalidLength => " has invalid length"
      case NotConvertible(why) => " cannot be converted to a Path: " + why
      case EmptyPath => " cannot be an empty path"
      case PathMissing(p) => " path must exist, but " + Quoted(p) + " does not exist"
      case PathPresent(p) => " path must not exist, but " + Quoted(p) + " already exists"
      case FileMissing(p) => " must be an existing file, but " + Quoted(p) + " does not exist"
      case NotAFile(p) => " must be a file, but " + Quoted(p) + " is not a file"
      case DirMissing(p) => " must be an existing directory, but " + Quoted(p) + " does not exist"
      case NotADir(p) => " must be a directory, but " + Quoted(p) + " is not a directory"
      case PathInvalid => " path validation failed"
      case MissingKey(k) => " missing required key: " + Quoted(k)
      case MissingKeys(ks) => " missing required keys: " + StrListRepr(ks)
      case IsNone => " must not be None"
      case BlankString => " must be a non-empty string"
  }
}
