/** `TypeValidationDecorator.type_checked`: checks each type-hinted argument
    of a call with the engine's `assert_type`, and turns the library's own
    failure into a `TypeError` that names the parameter. Binding arguments to
    the signature and calling the wrapped function are foreign: the bound
    arguments arrive as a list and the call's outcome as a value. */
module TypeValidationDecorator {
  import opened Wrappers
  import opened PyText
  import opened PyValues
  import opened Errors
  import opened Messages
  import opened ValidationConfig
  import opened NameExtractor
  import opened ValidationEngine

  /** A bound argument, with the parameter's type hint if it has one. */
  datatype Param = Param(name: string, value: Value, hint: Option<TypeSpec>)

  const Quote: char := '\''

  predicate NoQuote(s: string) {
    forall k :: 0 <= k < |s| ==> s[k] != Quote
  }

  /** The position of the first quote at or after `from`. */
  function QuotePos(s: string, from: nat): (r: Option<nat>)
    requires from <= |s|
    ensures r.None? ==> NoQuote(s[from..])
    ensures r.Some? ==> from <= r.value < |s| && s[r.value] == Quote && NoQuote(s[from..r.value])
    decreases |s| - from
  {
    if from == |s| then None
    else if s[from] == Quote then Some(from)
    else
      var r := QuotePos(s, from + 1);
      assert forall k :: from + 1 <= k <= |s| ==> s[from..k] == [s[from]] + s[from + 1..k];
      r
  }

  /** `'[^']*'` first matches from the first quote to the next one. */
  predicate FirstSpan(msg: string, i: int, j: int) {
    && 0 <= i < j < |msg| && msg[i] == Quote && msg[j] == Quote
    && NoQuote(msg[..i]) && NoQuote(msg[i + 1..j])
  }

  /** `re.sub(r"'[^']*'", f"'{name}'", msg, count=1)`: replace the first
      complete quoted span by the quoted parameter name. */
  function RewriteFirstQuoted(msg: string, name: string): (r: string)
    ensures forall i, j :: FirstSpan(msg, i, j) ==> r == msg[..i] + Quoted(name) + msg[j + 1..]
    ensures (forall i, j :: 0 <= i < j < |msg| ==> msg[i] != Quote || msg[j] != Quote) ==> r == msg
  {
    match QuotePos(msg, 0)
    case None => msg
    case Some(i) =>
      match QuotePos(msg, i + 1)
      case None => msg
      case Some(j) =>
        assert msg[0..i] == msg[..i];
        assert FirstSpan(msg, i, j);
        FirstSpanUnique(msg, i, j);
        msg[..i] + Quoted(name) + msg[j + 1..]
  }

  lemma NoQuoteBetween(msg: string, a: int, b: int)
    requires 0 <= a <= b <= |msg| && NoQuote(msg[a..b])
    ensures forall k :: a <= k < b ==> msg[k] != Quote
  {
    forall k | a <= k < b ensures msg[k] != Quote {
      assert msg[a..b][k - a] == msg[k];
    }
  }

  lemma FirstSpanUnique(msg: string, i: int, j: int)
    requires FirstSpan(msg, i, j)
    ensures forall i', j' :: FirstSpan(msg, i', j') ==> i' == i && j' == j
  {
    forall i', j' | FirstSpan(msg, i', j') ensures i' == i && j' == j {
      assert msg[..i] == msg[0..i] && msg[..i'] == msg[0..i'];
      NoQuoteBetween(msg, 0, i);
      NoQuoteBetween(msg, 0, i');
      NoQuoteBetween(msg, i + 1, j);
      NoQuoteBetween(msg, i' + 1, j');
    }
  }

  /** A message that opens with a quoted, quote-free name gets that name
      replaced and the rest kept. */
  lemma RewriteQuotedPrefix(n: string, rest: string, param: string)
    requires NoQuote(n)
    ensures RewriteFirstQuoted(Quoted(n) + rest, param) == Quoted(param) + rest
  {
    var msg := Quoted(n) + rest;
    var j := |n| + 1;
    assert msg[0] == Quote && msg[j] == Quote;
    assert msg[1..j] == n;
    assert msg[..0] == [];
    assert FirstSpan(msg, 0, j);
    assert msg[j + 1..] == rest;
  }

  /** A library message whose subject name has no quote in it becomes the
      same message about the parameter. */
  lemma RewriteRenamesSubject(f: Failure, param: string)
    requires NoQuote(f.name)
    ensures RewriteFirstQuoted(Text(f), param) == Text(f.(name := param))
  {
    var msg := Text(f);
    assert msg == msg[..|f.name| + 2] + msg[|f.name| + 2..];
    RewriteQuotedPrefix(f.name, Detail(f.problem), param);
    var renamed := Text(f.(name := param));
    assert renamed == renamed[..|param| + 2] + renamed[|param| + 2..];
  }

  /** A message without a quote is left alone, as the source's guard
      `"'" in error_msg` skips the substitution for it. */
  lemma RewriteWithoutSpan(msg: string, name: string)
    requires NoQuote(msg)
    ensures RewriteFirstQuoted(msg, name) == msg
  {
  }

  /** The exception the wrapper raises for a failed argument check: the
      library's `TypeAssertionError` (or a subclass) becomes a `TypeError`
      naming the function and the parameter; anything else passes through. */
  function Rejection(e: Exc, funcName: string, param: string): (r: Exc)
    ensures e.Raised? && IsTypeAssertionError(e.cls) ==>
              r == TypeError("In call to " + funcName + ": " + RewriteFirstQuoted(e.msg, param))
    ensures !(e.Raised? && IsTypeAssertionError(e.cls)) ==> r == e
  {
    if e.Raised? && IsTypeAssertionError(e.cls) then
      TypeError("In call to " + funcName + ": " + RewriteFirstQuoted(e.msg, param))
    else e
  }

  /** `assert_type` of one bound argument. */
  function CheckParam(cfg: Config, site: FrameInfo, p: Param): Result<Value, Exc> {
    if p.hint.Some? then AssertType(cfg, site, p.value, p.hint, None) else Success(p.value)
  }

  /** The check outcome of each bound argument, in binding order. */
  function Outcomes(cfg: Config, site: FrameInfo, params: seq<Param>): (r: seq<Result<Value, Exc>>)
    ensures |r| == |params|
    ensures forall k :: 0 <= k < |params| ==> r[k] == CheckParam(cfg, site, params[k])
  {
    seq(|params|, k requires 0 <= k < |params| => CheckParam(cfg, site, params[k]))
  }

  /** The position of the first failed outcome at or after `from`. */
  function FirstFailed(outcomes: seq<Result<Value, Exc>>, from: nat): (r: Option<nat>)
    requires from <= |outcomes|
    ensures r.None? <==> forall k :: from <= k < |outcomes| ==> outcomes[k].Success?
    ensures r.Some? ==> && from <= r.value < |outcomes| && outcomes[r.value].Failure?
                        && forall m :: from <= m < r.value ==> outcomes[m].Success?
    decreases |outcomes| - from
  {
    if from == |outcomes| then None
    else if outcomes[from].Failure? then Some(from)
    else FirstFailed(outcomes, from + 1)
  }

  /** The decorated call: arguments are checked in binding order; the
      wrapped function's outcome is passed on only when all of them pass;
      otherwise the first failure is raised, rewritten when it is the
      library's own. */
  function TypeChecked(cfg: Config, site: FrameInfo, funcName: string, params: seq<Param>,
                       call: Result<Value, Exc>): (r: Result<Value, Exc>)
    ensures var o := Outcomes(cfg, site, params);
            (forall k :: 0 <= k < |o| ==> o[k].Success?) ==> r == call
    ensures var o := Outcomes(cfg, site, params);
            !(forall k :: 0 <= k < |o| ==> o[k].Success?) ==>
              exists k :: && 0 <= k < |o| && o[k].Failure?
                          && (forall m :: 0 <= m < k ==> o[m].Success?)
                          && r == Failure(Rejection(o[k].error, funcName, params[k].name))
  {
    var o := Outcomes(cfg, site, params);
    match FirstFailed(o, 0)
    case None => call
    case Some(k) => Failure(Rejection(o[k].error, funcName, params[k].name))
  }

  /** Only hinted arguments are looked at, and a lenient configuration lets
      every argument through. */
  lemma UnhintedOrLenientPass(cfg: Config, site: FrameInfo, funcName: string, params: seq<Param>, call: Result<Value, Exc>)
    requires !cfg.raiseOnFailure || forall k :: 0 <= k < |params| ==> params[k].hint.None?
    ensures TypeChecked(cfg, site, funcName, params, call) == call
  {
    var o := Outcomes(cfg, site, params);
    assert forall k :: 0 <= k < |o| ==> o[k].Success? by {
      forall k | 0 <= k < |o| ensures o[k].Success? {
        assert o[k] == CheckParam(cfg, site, params[k]);
      }
    }
  }

  /** Under a raising configuration with the library's error class, an
      argument of the wrong type is reported as a `TypeError` about the
      parameter, when the extracted subject name has no quote in it. */
  lemma WrongArgumentMessage(cfg: Config, site: FrameInfo, funcName: string, p: Param, call: Result<Value, Exc>)
    requires cfg.raiseOnFailure && cfg.errorClass == TypeAssertionError
    requires p.hint.Some? && !Validators.TypeValidate(p.value, p.hint).value
    requires NoQuote(SubjectName(cfg, site))
    ensures TypeChecked(cfg, site, funcName, [p], call)
            == Failure(TypeError("In call to " + funcName + ": " + Text(Rejected(p.name, WrongType(p.hint.value, TypeOf(p.value))))))
  {
    var f := Rejected(SubjectName(cfg, site), WrongType(p.hint.value, TypeOf(p.value)));
    assert CheckParam(cfg, site, p) == Failure(Raised(TypeAssertionError, Text(f)));
    assert Outcomes(cfg, site, [p])[0] == CheckParam(cfg, site, p);
    RewriteRenamesSubject(f, p.name);
  }

  /** A caller-supplied error class that does not extend
      `TypeAssertionError` escapes the wrapper unchanged. */
  lemma ForeignErrorPropagates(cfg: Config, site: FrameInfo, funcName: string, p: Param, call: Result<Value, Exc>)
    requires cfg.raiseOnFailure && !IsTypeAssertionError(cfg.errorClass)
    requires p.hint.Some? && !Validators.TypeValidate(p.value, p.hint).value
    ensures TypeChecked(cfg, site, funcName, [p], call) == CheckParam(cfg, site, p)
    ensures TypeChecked(cfg, site, funcName, [p], call).Failure?
  {
  }
}
