/** The validation configuration record and its defaults. */
module ValidationConfig {
  import opened Errors

  /** `strictMode` is stored but read by nothing in the engine. */
  datatype Config = Config(
    strictMode: bool,
    autoExtractNames: bool,
    raiseOnFailure: bool,
    errorClass: ErrorClass)

  /** `ValidationConfig(...)`: every keyword defaults to the strict, raising,
      name-extracting setup with `TypeAssertionError`. */
  function NewConfig(strictMode: bool := true, autoExtractNames: bool := true,
                     raiseOnFailure: bool := true,
                     errorClass: ErrorClass := TypeAssertionError): (c: Config)
    ensures c.strictMode == strictMode && c.autoExtractNames == autoExtractNames
    ensures c.raiseOnFailure == raiseOnFailure && c.errorClass == errorClass
  {
    Config(strictMode, autoExtractNames, raiseOnFailure, errorClass)
  }

  /** The default configuration is strict, extracts names, raises, and raises
      the library's own `TypeAssertionError`, which the decorator catches. */
  lemma DefaultConfig()
    ensures NewConfig().strictMode && NewConfig().autoExtractNames && NewConfig().raiseOnFailure
    ensures NewConfig().errorClass == TypeAssertionError
    ensures IsTypeAssertionError(NewConfig().errorClass)
  {
  }
}
