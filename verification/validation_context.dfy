/** `ValidationContext`: a `with` block that swaps an engine's configuration
    for one with some settings overridden, and puts the old one back on the
    way out. The engine is a value here; entering and leaving return the
    updated engine. */
module ValidationContext {
  import opened Wrappers
  import opened Errors
  import opened ValidationConfig
  import opened ValidationEngine

  /** A keyword override. The three switches are read by truth value; an
      exception class is truthy. */
  datatype Setting = Flag(b: bool) | ErrClass(cls: ErrorClass) {
    predicate Truthy() {
      Flag? ==> b
    }
  }

  type Overrides = map<string, Setting>

  /** The four keywords the context looks at. */
  const ConfigKeys: set<string> := {"strict_mode", "auto_extract_names", "raise_on_failure", "custom_error_class"}

  /** The error class, when overridden, is an exception class. */
  predicate WellTyped(ov: Overrides) {
    "custom_error_class" in ov ==> ov["custom_error_class"].ErrClass?
  }

  /** A context object: the configuration it will restore, and the overrides. */
  datatype Scope = Scope(original: Config, overrides: Overrides)

  /** `ValidationContext(engine, **overrides)`: the configuration to restore
      is taken when the context object is built, not when it is entered. */
  function NewScope(e: Engine, ov: Overrides): (s: Scope)
    ensures s.original == e.config && s.overrides == ov
  {
    Scope(e.config, ov)
  }

  function FlagOr(ov: Overrides, key: string, otherwise: bool): bool {
    if key in ov then ov[key].Truthy() else otherwise
  }

  /** The configuration in force inside the block. */
  function Overridden(s: Scope): (c: Config)
    requires WellTyped(s.overrides)
    ensures "strict_mode" !in s.overrides ==> c.strictMode == s.original.strictMode
    ensures "strict_mode" in s.overrides ==> (c.strictMode <==> s.overrides["strict_mode"].Truthy())
    ensures "auto_extract_names" !in s.overrides ==> c.autoExtractNames == s.original.autoExtractNames
    ensures "auto_extract_names" in s.overrides ==> (c.autoExtractNames <==> s.overrides["auto_extract_names"].Truthy())
    ensures "raise_on_failure" !in s.overrides ==> c.raiseOnFailure == s.original.raiseOnFailure
    ensures "raise_on_failure" in s.overrides ==> (c.raiseOnFailure <==> s.overrides["raise_on_failure"].Truthy())
    ensures "custom_error_class" in s.overrides ==> c.errorClass == s.overrides["custom_error_class"].cls
    ensures "custom_error_class" !in s.overrides ==> c.errorClass == s.original.errorClass
  {
    var ov := s.overrides;
    NewConfig(
      FlagOr(ov, "strict_mode", s.original.strictMode),
      FlagOr(ov, "auto_extract_names", s.original.autoExtractNames),
      FlagOr(ov, "raise_on_failure", s.original.raiseOnFailure),
      if "custom_error_class" in ov then ov["custom_error_class"].cls else s.original.errorClass)
  }

  /** `__enter__`: install the overridden configuration; the registry is
      untouched. */
  function Enter(s: Scope, e: Engine): (r: Engine)
    requires WellTyped(s.overrides)
    ensures r.config == Overridden(s) && r.validators == e.validators
  {
    e.(config := Overridden(s))
  }

  /** `__exit__`: put back the configuration taken at construction, whatever
      the block did to the engine's configuration; exceptions propagate. */
  function Exit(s: Scope, e: Engine): (r: Engine)
    ensures r.config == s.original && r.validators == e.validators
  {
    e.(config := s.original)
  }

  /** A `with` block: the body runs on the entered engine and may change it
      or fail; either way the engine comes out with its configuration as it
      was when the context was built, and the body's outcome is passed on. */
  function RunScoped<T>(e: Engine, ov: Overrides, body: Engine -> (Engine, Result<T, Exc>)): (r: (Engine, Result<T, Exc>))
    requires WellTyped(ov)
    ensures r.0.config == e.config
    ensures r.0.validators == body(Enter(NewScope(e, ov), e)).0.validators
    ensures r.1 == body(Enter(NewScope(e, ov), e)).1
  {
    var s := NewScope(e, ov);
    var (inner, outcome) := body(Enter(s, e));
    (Exit(s, inner), outcome)
  }

  /** Keywords other than the four configuration names are accepted and
      ignored. */
  lemma ExtraKeysIgnored(s: Scope, k: string, v: Setting)
    requires WellTyped(s.overrides) && k !in ConfigKeys
    ensures WellTyped(s.overrides[k := v])
    ensures Overridden(s.(overrides := s.overrides[k := v])) == Overridden(s)
  {
  }

  /** No overrides: the block runs under the configuration it was built from. */
  lemma NoOverridesKeepConfig(e: Engine)
    ensures Enter(NewScope(e, map[]), e) == e
  {
  }

  /** Entering and leaving a freshly built context gives the engine back. */
  lemma EnterExitRestores(e: Engine, ov: Overrides)
    requires WellTyped(ov)
    ensures Exit(NewScope(e, ov), Enter(NewScope(e, ov), e)) == e
  {
  }

  /** The configuration is captured at construction: if the engine's
      configuration changes before the block is entered, leaving the block
      restores the construction-time configuration, not the entry-time one. */
  lemma CapturedAtConstruction(e: Engine, later: Config, ov: Overrides)
    requires WellTyped(ov) && later != e.config
    ensures var s := NewScope(e, ov);
            var entered := Enter(s, e.(config := later));
            Exit(s, entered).config == e.config && Exit(s, entered).config != later
  {
  }

  /** Inside a block with `raise_on_failure=False`, no validation raises the
      configured exception. */
  lemma LenientScopeNeverRaises(e: Engine, ov: Overrides, site: NameExtractor.FrameInfo,
                                c: Validators.Check, v: PyValues.Value, msg: Option<string>)
    requires WellTyped(ov) && "raise_on_failure" in ov && ov["raise_on_failure"] == Flag(false)
    ensures var r := ValidateWith(Enter(NewScope(e, ov), e).config, site, c, v, msg);
            r.Failure? ==> !r.error.Raised?
  {
    LenientValidationNeverRaises(Enter(NewScope(e, ov), e).config, site, c, v, msg);
  }

  // ---- nesting -----------------------------------------------------------------

  predicate AllWellTyped(ovs: seq<Overrides>) {
    forall i :: 0 <= i < |ovs| ==> WellTyped(ovs[i])
  }

  /** Enter one context per override map, each built on the engine as the
      previous one left it; returns the innermost engine and the contexts,
      outermost first. */
  function EnterNested(e: Engine, ovs: seq<Overrides>): (r: (Engine, seq<Scope>))
    requires AllWellTyped(ovs)
    ensures |r.1| == |ovs|
    ensures forall i :: 0 <= i < |ovs| ==> r.1[i].overrides == ovs[i]
    ensures r.0.validators == e.validators
    ensures ovs == [] ==> r.0 == e
    ensures ovs != [] ==> r.1[0] == NewScope(e, ovs[0])
    ensures forall i :: 0 < i < |ovs| ==> r.1[i].original == Overridden(r.1[i - 1])
    ensures ovs != [] ==> r.0.config == Overridden(r.1[|ovs| - 1])
    decreases |ovs|
  {
    if ovs == [] then (e, [])
    else
      var s := NewScope(e, ovs[0]);
      assert AllWellTyped(ovs[1..]) by {
        forall i | 0 <= i < |ovs[1..]| ensures WellTyped(ovs[1..][i]) {
          assert ovs[1..][i] == ovs[i + 1];
        }
      }
      var (inner, scopes) := EnterNested(Enter(s, e), ovs[1..]);
      assert forall i :: 0 < i < |ovs| ==> ([s] + scopes)[i] == scopes[i - 1];
      (inner, [s] + scopes)
  }

  /** Leave the contexts, innermost first. */
  function ExitNested(e: Engine, scopes: seq<Scope>): (r: Engine)
    ensures scopes != [] ==> r.config == scopes[0].original
    ensures r.validators == e.validators
    decreases |scopes|
  {
    if scopes == [] then e
    else Exit(scopes[0], ExitNested(e, scopes[1..]))
  }

  /** However deeply contexts are nested, leaving them all in reverse order
      gives back the engine as it was before the outermost one was built. */
  lemma {:induction false} NestedScopesRestore(e: Engine, ovs: seq<Overrides>)
    requires AllWellTyped(ovs)
    ensures var (inner, scopes) := EnterNested(e, ovs);
            ExitNested(inner, scopes) == e
    decreases |ovs|
  {
    if ovs != [] {
      var s := NewScope(e, ovs[0]);
      assert AllWellTyped(ovs[1..]) by {
        forall i | 0 <= i < |ovs[1..]| ensures WellTyped(ovs[1..][i]) {
          assert ovs[1..][i] == ovs[i + 1];
        }
      }
      NestedScopesRestore(Enter(s, e), ovs[1..]);
    }
  }
}
