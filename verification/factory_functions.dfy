/** The engine presets. */
module FactoryFunctions {
  import opened Wrappers
  import opened Errors
  import opened ValidationConfig
  import opened ValidationEngine

  /** `create_validation_engine`: an engine whose configuration holds
      exactly the given settings, with the built-in validators. */
  function CreateValidationEngine(strictMode: bool := true, autoExtractNames: bool := true,
                                  raiseOnFailure: bool := true,
                                  errorClass: ErrorClass := TypeAssertionError): (e: Engine)
    ensures e.config.strictMode == strictMode && e.config.autoExtractNames == autoExtractNames
    ensures e.config.raiseOnFailure == raiseOnFailure && e.config.errorClass == errorClass
    ensures e.validators == DefaultValidators
  {
    NewEngine(Some(NewConfig(strictMode, autoExtractNames, raiseOnFailure, errorClass)))
  }

  /** `create_lenient_engine`: not strict and not raising; names are still
      extracted and the error class is still `TypeAssertionError`. */
  function CreateLenientEngine(): (e: Engine)
    ensures !e.config.strictMode && !e.config.raiseOnFailure
    ensures e.config.autoExtractNames && e.config.errorClass == TypeAssertionError
    ensures e.validators == DefaultValidators
  {
    CreateValidationEngine(strictMode := false, raiseOnFailure := false)
  }

  /** `create_custom_validator_engine`: the default engine with its registry
      updated; supplied names replace same-named entries, and the rest of
      the built-ins stay. */
  function CreateCustomValidatorEngine(custom: map<string, RegisteredValidator>): (e: Engine)
    ensures e.config == NewConfig()
    ensures e.validators.Keys == DefaultValidators.Keys + custom.Keys
    ensures forall k :: k in custom ==> e.validators[k] == custom[k]
    ensures forall k :: k in DefaultValidators && k !in custom ==> e.validators[k] == DefaultValidators[k]
  {
    var base := NewEngine(None);
    base.(validators := base.validators + custom)
  }

  /** Validation through a lenient engine never raises the configured
      exception: a rejected value comes back as False. */
  lemma LenientNeverRaises(site: NameExtractor.FrameInfo, c: Validators.Check, v: PyValues.Value, msg: Option<string>)
    ensures var r := ValidateWith(CreateLenientEngine().config, site, c, v, msg);
            && (Validators.Validate(c, v) == Success(false) ==> r == Success(false))
            && (r.Failure? ==> !r.error.Raised?)
  {
    LenientValidationNeverRaises(CreateLenientEngine().config, site, c, v, msg);
  }
}
