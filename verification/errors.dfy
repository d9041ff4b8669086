/** The exceptions the library raises or lets through. */
module Errors {

  /** The configurable error class. `TypeAssertionError` subclasses Python's
      `AssertionError`; a caller-supplied class records whether it in turn
      subclasses `TypeAssertionError`, which decides whether the decorator
      catches it. */
  datatype ErrorClass =
    | TypeAssertionError
    | CustomErrorClass(className: string, extendsTypeAssertionError: bool)

  /** `except TypeAssertionError` catches instances of the class and of its
      subclasses. */
  predicate IsTypeAssertionError(c: ErrorClass) {
    c.TypeAssertionError? || c.extendsTypeAssertionError
  }

  /** An exception with its `str()` text: an instance of the configured class,
      or one of the builtin errors that Python raises on misuse. */
  datatype Exc =
    | Raised(cls: ErrorClass, msg: string)
    | TypeError(msg: string)
    | ValueError(msg: string)
    | AttributeError(msg: string)
}
