# GERG type validation, modelled in Dafny

This project models the runtime type-validation library `gerg_type_validation`:
- the four validators: type, range, length and path;
- the `TypeValidationEngine` facade and its `ValidationConfig`;
- the `ValidationContext` scoped override;
- how `VariableNameExtractor` renders the subject's name;
- the `ValidationPatterns` numeric and non-empty-string checks;
- `BatchValidator`;
- the message rewrite done by the `@type_checked` decorator;
- `validate_dict_schema`;
- the factory functions.

Each Python operation becomes a pure function. It takes the engine configuration, the caller's frame information and the arguments. It returns `Result<T, Exc>`, where `Exc` is the exception the Python code would raise.

Failures are data. A `Messages.Failure` is a subject name plus a `Problem`. `Messages.Text` renders it as the library's message text, so every message begins with the quoted subject name.

Python values are a closed datatype (`PyValues.Value`). `isinstance` follows Python's class hierarchy: `bool` is a subclass of `int`, and a concrete path is a `PosixPath`, which is a subclass of `Path`.

The package under `src/gerg_type_validation/` is the primary source. `src/core.py` and `src/utils.py` are older copies of the same engine and utilities. `src/core.py` even imports `TypeValidationEngine` from itself (line 12). Where they behave the same, the package lines are cited. `src/schema_validator.py` exists only at the top level and is cited there. The package also has a `factory_functions` module, imported by `src/gerg_type_validation/__init__.py:12`. That package file is not part of this model, so the top-level `src/factory_functions.py` is cited for the factory functions.

Where the code and its prose description disagree, the model follows the code:
- A `ValidationContext` saves the configuration when the context object is built, not when it is entered.
- An exact `length` does not switch off `min_length`/`max_length`: all three are checked.
- `assert_range` and the range validator, given a non-number and a bound, raise Python's `TypeError` from the comparison. They do not fail with a validation message.

One exception: a bytes path. The code turns it into the path text `b'...'` (see "## Findings"). `Validators.ConvertToPath`, `Validators.PathValidate` and `ValidationEngine.AssertPath` decode the bytes instead. `Validators.ConvertToPathAsWritten` and `ValidationEngine.AssertPathAsWritten` keep the behaviour as written.

Modules, one per file:
- `Wrappers`
- `PyText`: text, repr and whitespace helpers
- `PyValues`
- `Errors`
- `Messages`
- `Validators`
- `ValidationConfig`
- `NameExtractor`
- `ValidationEngine`
- `ValidationContext`
- `ValidationPatterns`
- `BatchValidator`
- `TypeValidationDecorator`
- `SchemaValidator`
- `FactoryFunctions`

## Model

| member | source | states |
|---|---|---|
| ValidationConfig.NewConfig | src/gerg_type_validation/validation_config.py:10-18 | every field is the constructor argument; the defaults are strict, name extraction on, raise on failure, `TypeAssertionError` |
| ValidationConfig.DefaultConfig | src/gerg_type_validation/validation_config.py:10-18 | the default configuration is strict, extracts names, raises, and raises a `TypeAssertionError` |
| Validators.AnyInstance | src/gerg_type_validation/validators.py:33-35 | a value matches a list or tuple of types exactly when it is an instance of one of them |
| Validators.TypeValidate | src/gerg_type_validation/validators.py:28-36 | a missing expected type raises ValueError; otherwise the verdict is `isinstance` against the class, or against any member of a list or tuple |
| Validators.TypeFailure | src/gerg_type_validation/validators.py:38-51 | the message names the subject, the expected type spec and the actual type; a missing expected type raises ValueError |
| Validators.RangeValidate | src/gerg_type_validation/validators.py:57-63 | for numbers, true exactly when both bounds (inclusive, absent = unchecked) hold; a non-number with any bound raises TypeError, with none passes |
| Validators.RangeFailure | src/gerg_type_validation/validators.py:65-72 | a minimum violation is reported first, then a maximum violation; the generic "out of valid range" text appears exactly when the value is in range |
| Validators.LengthValidate | src/gerg_type_validation/validators.py:77-90 | true exactly when the value has a `len` and meets the exact length and both bounds; an unsized value is rejected without raising |
| Validators.LengthFailure | src/gerg_type_validation/validators.py:92-106 | reports, in order, an unsized value, a wrong exact length, a short and a long value, each case exactly when it is the first rule broken, carrying the actual length |
| Validators.ConvertToPath | src/gerg_type_validation/validators.py:111-121 | paths kept, str taken as text, anything else a TypeError naming its type; bytes are decoded byte by byte, the corrected behaviour (the code as written gives their repr) |
| Validators.PathValidate | src/gerg_type_validation/validators.py:111-134 | true exactly when the value is not blank text or empty bytes, converts to a path, and that path meets the existence, file and directory rules |
| Validators.PathConstructor | src/gerg_type_validation/validators.py:138-144 | the describer's `Path(value)` accepts exactly paths and str |
| Validators.PathFailure | src/gerg_type_validation/validators.py:136-162 | reports exactly the first rule broken, in order: non-convertible, blank, missing or present when existence is required or forbidden, a missing file, not a file, a missing directory, not a directory; "validation failed" exactly when the path is valid |
| Validators.BytesPathAsWrittenIsMangled | src/gerg_type_validation/validators.py:119 | the conversion as written turns `b"/tmp"` into the path `b'/tmp'`; the corrected conversion gives `/tmp` |
| Validators.DescribeRejected | src/gerg_type_validation/validators.py:38-162 | whenever a validator rejects a value, its describer yields a message for the given name and does not raise |
| Messages.Text | src/gerg_type_validation/validators.py:45-51 | every failure text opens with the quoted subject name, followed by text that depends only on the problem |
| NameExtractor.RenderDottedPath | src/gerg_type_validation/variable_name_extractor.py:49-53 | a dotted attribute access renders as its identifiers joined by dots |
| NameExtractor.RenderAbbreviations | src/gerg_type_validation/variable_name_extractor.py:54-61 | a subscript renders as its base followed by `[...]`, and a call of a name or a dotted path as the callee followed by `(...)`, whatever the index or arguments |
| NameExtractor.RenderFallback | src/gerg_type_validation/variable_name_extractor.py:57-63 | every other expression renders as "expression" |
| NameExtractor.Walk | src/gerg_type_validation/variable_name_extractor.py:32 | the breadth-first walk starts with the nodes it is given, in order, and visits as many nodes as the forest holds |
| NameExtractor.NodesAppend | src/gerg_type_validation/variable_name_extractor.py:32 | the nodes of two forests side by side are the nodes of each |
| NameExtractor.NodesByLevel | src/gerg_type_validation/variable_name_extractor.py:32 | the nodes of a forest are its roots plus the nodes of the next level down |
| NameExtractor.WalkVisitsEveryNode | src/gerg_type_validation/variable_name_extractor.py:32 | the walk visits exactly the nodes of the tree, each once, compared against an independent depth-first listing |
| NameExtractor.FirstValidationCall | src/gerg_type_validation/variable_name_extractor.py:32-38 | finds the first node in walk order that calls a validation entry point by name with a positional argument, or reports that none does |
| NameExtractor.FirstIsEarliest | src/gerg_type_validation/variable_name_extractor.py:32-38 | any validation call with no validation call before it is the one found |
| NameExtractor.RegexFallback | src/gerg_type_validation/variable_name_extractor.py:66-82 | with no match, "value"; otherwise the captured text with no whitespace left in it, every other character kept in order |
| PyText.RemoveWhitespace | src/gerg_type_validation/variable_name_extractor.py:78-79 | the result holds no whitespace, is a subsequence of the input, and is shorter exactly by the input's whitespace count |
| PyText.RemoveWhitespaceIsUnique | src/gerg_type_validation/variable_name_extractor.py:78-79 | any whitespace-free subsequence is at most that long, and one of that length is the result itself |
| NameExtractor.ExtractFromFrame | src/gerg_type_validation/variable_name_extractor.py:17-44 | no frame, no source line or an unparseable line give "value"; otherwise the first argument of the first validation call, else the regex fallback |
| NameExtractor.OuterCallWins | src/gerg_type_validation/variable_name_extractor.py:26-38 | when the line is a validation call, parsed as a module holding one expression statement, its own first argument names the subject, ahead of nested calls |
| NameExtractor.OuterCallWinsAfterSyntaxError | src/gerg_type_validation/variable_name_extractor.py:27-38 | the same when the line is parsed as `dummy = <line>`: the assignment target does not get in the way |
| ValidationEngine.NewEngine | src/gerg_type_validation/type_validation_engine.py:15-22 | an absent config becomes the default one; the registry is exactly the four built-in validators under their names |
| ValidationEngine.SubjectName | src/gerg_type_validation/type_validation_engine.py:46-52 | with name extraction off, the subject is called "value" |
| ValidationEngine.ChooseMessage | src/gerg_type_validation/type_validation_engine.py:62 | a non-empty custom message replaces the generated one; an absent or empty one does not |
| ValidationEngine.ValidateWith | src/gerg_type_validation/type_validation_engine.py:54-65 | succeeds exactly when the validator does not raise and either accepts or raising is off; a rejection under raising becomes the configured error class with the described (or custom) message; validator exceptions propagate |
| ValidationEngine.AssertWith | src/gerg_type_validation/type_validation_engine.py:67-71 | returns the value itself exactly when the validation succeeds, else the same exception |
| ValidationEngine.IsType | src/gerg_type_validation/type_validation_engine.py:74-76 | `isinstance` against a class, or against any member of a tuple of classes; a list of classes makes `isinstance` raise TypeError |
| ValidationEngine.IsTypeAgreesWithAssertType | src/gerg_type_validation/type_validation_engine.py:74-85 | under raising, `is_type` is true exactly when `assert_type` passes, for a class or a tuple; a list passes `assert_type` on membership but makes `is_type` raise; leniently, `assert_type` always passes |
| ValidationEngine.IsNotNone | src/gerg_type_validation/type_validation_engine.py:78-80 | true exactly for values other than None |
| ValidationEngine.IsNotNoneAgreesWithAssertNotNone | src/gerg_type_validation/type_validation_engine.py:78-93 | `is_not_none` is true exactly when `assert_not_none` hands the value back |
| ValidationEngine.AssertType | src/gerg_type_validation/type_validation_engine.py:82-85 | returns the value when raising is off or the type matches; otherwise the configured error with the wrong-type message; a missing type raises ValueError |
| ValidationEngine.AssertNotNone | src/gerg_type_validation/type_validation_engine.py:87-93 | fails exactly on None, with the "must not be None" message, whatever the configuration |
| ValidationEngine.FalsyValuesArePresent | src/gerg_type_validation/type_validation_engine.py:78-93 | 0, "" and False pass the not-None checks; None does not |
| ValidationEngine.AssertNumeric | src/gerg_type_validation/type_validation_engine.py:94-103 | under raising, passes exactly numbers within both bounds, with the type failure first, then minimum, then maximum; leniently, a non-number with a bound hits a TypeError |
| ValidationEngine.AssertStringLike | src/gerg_type_validation/type_validation_engine.py:105-114 | under raising, passes exactly str or bytes whose length meets both bounds, with the type failure first; leniently, always returns the value |
| ValidationEngine.AssertSequence | src/gerg_type_validation/type_validation_engine.py:116-125 | under raising, passes exactly lists and tuples whose length meets the exact length and both bounds; leniently, always returns the value |
| ValidationEngine.DictMissingKeys | src/gerg_type_validation/type_validation_engine.py:143 | the missing keys are exactly the required keys absent from the dict, in their given order, each as often as it is required |
| ValidationEngine.AssertMapping | src/gerg_type_validation/type_validation_engine.py:127-151 | a non-dict fails the dict type check first; a dict passes exactly when no required key is missing; one missing key and several missing keys have their own messages |
| ValidationEngine.MissingKeysExamples | src/gerg_type_validation/type_validation_engine.py:138-149 | with keys a and b required, `{a: 1}` misses "b"; `{}` misses both, reported as a list |
| ValidationEngine.AssertPath | src/gerg_type_validation/type_validation_engine.py:153-188 | non-convertible values and blank text always fail; otherwise the result is the converted path exactly when raising is off or the rules hold, and the failure is the path validator's message |
| ValidationEngine.AssertPathAsWritten | src/gerg_type_validation/type_validation_engine.py:153-188 | as `AssertPath` for everything but bytes; non-empty bytes become the path text `b'...'`, which must meet the rules |
| ValidationEngine.BytesAssertPathAsWrittenFails | src/gerg_type_validation/type_validation_engine.py:164 | `b"/tmp"` naming an existing directory passes the corrected assertion and fails the one as written |
| ValidationEngine.PathExamples | src/gerg_type_validation/type_validation_engine.py:172-188 | an empty string is rejected as an empty path; an existing directory passes the directory rule and fails the file rule |
| ValidationEngine.AssertPathIdempotent | src/gerg_type_validation/type_validation_engine.py:153-188 | a path returned by `assert_path` passes the same assertion again unchanged |
| ValidationEngine.AssertRange | src/gerg_type_validation/type_validation_engine.py:190-194 | a number passes when raising is off or both bounds hold; a non-number passes only when no bound is given |
| ValidationEngine.AssertLength | src/gerg_type_validation/type_validation_engine.py:196-200 | passes exactly when raising is off or the value has a length within both bounds |
| ValidationEngine.SubjectNameIsCosmetic | src/gerg_type_validation/type_validation_engine.py:54-65 | the call site never changes whether a check passes or which exception class it raises; with name extraction off it changes nothing |
| ValidationEngine.PathSubjectNameIsCosmetic | src/gerg_type_validation/type_validation_engine.py:153-188 | the same for `assert_path` |
| ValidationEngine.MappingSubjectNameIsCosmetic | src/gerg_type_validation/type_validation_engine.py:127-151 | the same for `assert_mapping` |
| ValidationEngine.LenientValidationNeverRaises | src/gerg_type_validation/type_validation_engine.py:58-65 | with raising off, validation fails only when the validator itself raises, and never with the configured error class |
| ValidationContext.NewScope | src/gerg_type_validation/validation_context.py:10-13 | the context saves the engine's configuration at construction, together with the overrides |
| ValidationContext.Overridden | src/gerg_type_validation/validation_context.py:15-24 | each of the four overridden fields takes the override's truth value (or class); every other field keeps its saved value |
| ValidationContext.Enter | src/gerg_type_validation/validation_context.py:15-24 | entering installs the overridden configuration and leaves the validators alone |
| ValidationContext.Exit | src/gerg_type_validation/validation_context.py:26-28 | leaving restores the saved configuration |
| ValidationContext.RunScoped | src/gerg_type_validation/validation_context.py:15-28 | after a `with` block, normal or raising, the engine's configuration is what it was before; the block's outcome is kept |
| ValidationContext.ExtraKeysIgnored | src/gerg_type_validation/validation_context.py:17-22 | override keywords other than the four configuration fields have no effect |
| ValidationContext.NoOverridesKeepConfig | src/gerg_type_validation/validation_context.py:15-24 | a context without overrides changes nothing |
| ValidationContext.EnterExitRestores | src/gerg_type_validation/validation_context.py:15-28 | entering then leaving gives back the original engine |
| ValidationContext.CapturedAtConstruction | src/gerg_type_validation/validation_context.py:10-13 | a configuration changed between building and entering the context is lost at exit: the construction-time one comes back |
| ValidationContext.LenientScopeNeverRaises | src/gerg_type_validation/validation_context.py:15-24 | inside a `raise_on_failure=False` scope, validation never raises the configured error class |
| ValidationContext.EnterNested | src/gerg_type_validation/validation_context.py:10-24 | the outermost context saves the engine's configuration, each inner one the configuration its enclosing context installed; the last one's overridden configuration is in force; the validators are untouched |
| ValidationContext.ExitNested | src/gerg_type_validation/validation_context.py:26-28 | leaving nested contexts innermost first ends with the outermost saved configuration |
| ValidationContext.NestedScopesRestore | src/gerg_type_validation/validation_context.py:10-28 | any stack of nested contexts, entered and left in order, restores the original engine |
| ValidationPatterns.ValidatePositiveNumber | src/gerg_type_validation/utils.py:45-51 | under raising, passes exactly numbers of at least 0.0001; leniently, exactly numbers |
| ValidationPatterns.ValidateNonNegativeNumber | src/gerg_type_validation/utils.py:53-59 | under raising, passes exactly numbers of at least 0; leniently, exactly numbers |
| ValidationPatterns.ValidatePercentage | src/gerg_type_validation/utils.py:61-67 | under raising, passes exactly numbers from 0 to 100 inclusive; leniently, exactly numbers |
| ValidationPatterns.NumericPatternExamples | src/gerg_type_validation/utils.py:45-67 | 0 is not positive but is non-negative; True counts as positive; 100.5 and "50" are not percentages |
| ValidationPatterns.PositiveIsNonNegative | src/gerg_type_validation/utils.py:45-59 | whatever the configuration, a value accepted as positive is accepted as non-negative |
| ValidationPatterns.StripsToEmpty | src/gerg_type_validation/utils.py:76 | `strip()` leaves nothing exactly for blank str or bytes; other values have no `strip` and raise AttributeError |
| ValidationPatterns.ValidateNonEmptyString | src/gerg_type_validation/utils.py:69-80 | under raising, passes exactly str with a non-whitespace character; blank text always raises the configured error, even leniently |
| ValidationPatterns.NonEmptyStringExamples | src/gerg_type_validation/utils.py:69-80 | whitespace-only and empty strings are rejected; " a " is returned unchanged |
| BatchValidator.NewBatch | src/gerg_type_validation/utils.py:86-88 | a new batch has no errors and the given (or a default) engine configuration |
| BatchValidator.AddValidation | src/gerg_type_validation/utils.py:90-95 | a validation that raises appends its message; one that passes leaves the errors as they were |
| BatchValidator.Bullets | src/gerg_type_validation/utils.py:100 | every error becomes one "  - " line, in order |
| BatchValidator.ValidateAll | src/gerg_type_validation/utils.py:97-103 | raises the configured class with the report exactly when there are errors and raising is asked for; otherwise says whether the batch is clean |
| BatchValidator.GetErrors | src/gerg_type_validation/utils.py:105-107 | returns the errors in order |
| BatchValidator.ClearErrors | src/gerg_type_validation/utils.py:109-111 | after clearing, the batch has no errors and validates clean |
| BatchValidator.BatchMessageLines | src/gerg_type_validation/utils.py:100 | one more error adds exactly one more bullet line to the report |
| BatchValidator.FailureMessages | src/gerg_type_validation/utils.py:90-95 | there are no failure messages exactly when every outcome succeeded |
| BatchValidator.AddAllCollectsFailures | src/gerg_type_validation/utils.py:90-95 | adding a run of validations appends the messages of exactly the failed ones, in order |
| BatchValidator.BatchPassesIffAllPass | src/gerg_type_validation/utils.py:86-103 | a fresh batch validates clean exactly when every added validation passed; otherwise the raised report lists their messages |
| TypeValidationDecorator.RewriteFirstQuoted | src/gerg_type_validation/type_validation_decorator.py:32-34 | the first complete quoted span is replaced by the quoted parameter name, and nothing else changes; a message with no such span is left alone |
| TypeValidationDecorator.FirstSpanUnique | src/gerg_type_validation/type_validation_decorator.py:34 | the first complete quoted span is unique |
| TypeValidationDecorator.RewriteQuotedPrefix | src/gerg_type_validation/type_validation_decorator.py:34 | a message opening with a quoted quote-free name gets exactly that name replaced |
| TypeValidationDecorator.RewriteRenamesSubject | src/gerg_type_validation/type_validation_decorator.py:30-34 | for a subject name without quotes, the rewrite gives the same failure's text with the parameter as the subject |
| TypeValidationDecorator.RewriteWithoutSpan | src/gerg_type_validation/type_validation_decorator.py:32 | a message without quotes is left unchanged |
| TypeValidationDecorator.Rejection | src/gerg_type_validation/type_validation_decorator.py:29-35 | a `TypeAssertionError` (or a subclass) becomes a TypeError reading "In call to f: " and the message with its first quoted span renamed to the parameter; any other exception passes through as it was |
| TypeValidationDecorator.Outcomes | src/gerg_type_validation/type_validation_decorator.py:24-28 | one check per bound argument, in binding order, only for hinted ones |
| TypeValidationDecorator.FirstFailed | src/gerg_type_validation/type_validation_decorator.py:24-35 | finds the first failing check, or reports that all pass |
| TypeValidationDecorator.TypeChecked | src/gerg_type_validation/type_validation_decorator.py:15-39 | when every hinted argument passes, the result is the wrapped call's; otherwise the first failing argument's exception, converted and rewritten |
| TypeValidationDecorator.UnhintedOrLenientPass | src/gerg_type_validation/type_validation_decorator.py:24-37 | without hints or with raising off, the wrapper is the wrapped call |
| TypeValidationDecorator.WrongArgumentMessage | src/gerg_type_validation/type_validation_decorator.py:29-35 | a wrongly typed argument gives "In call to f: " plus the wrong-type message naming the parameter |
| TypeValidationDecorator.ForeignErrorPropagates | src/gerg_type_validation/type_validation_decorator.py:27-29 | with an error class outside the `TypeAssertionError` hierarchy, the engine's exception escapes unconverted |
| SchemaValidator.SchemaKeys | src/schema_validator.py:37 | the schema's field names, in order |
| SchemaValidator.FieldResult | src/schema_validator.py:37-60 | an absent field is a required-field error, its non-None default, or dropped; a present field that passes is always kept |
| SchemaValidator.PresentFieldChecked | src/schema_validator.py:43-54 | a present field failing its type check (under raising) is the wrong-type error; otherwise it is copied, or replaced by its validator's result, whose error propagates |
| SchemaValidator.WalkFields | src/schema_validator.py:37-60 | the walk succeeds exactly when every field does; the result holds only schema keys |
| SchemaValidator.WalkFieldsStopsAtFirstFailure | src/schema_validator.py:37-60 | a failed walk fails with the exception of the first failing field, every earlier field having passed |
| SchemaValidator.WalkFieldsEntries | src/schema_validator.py:37-60 | each field's checked value is what the result holds under its name |
| SchemaValidator.ExtraKeys | src/schema_validator.py:63-64 | the extra keys are exactly the data's keys that are not schema fields |
| SchemaValidator.ValidateDictSchema | src/schema_validator.py:14-68 | non-dicts fail `assert_mapping` first; a field failure is passed on; when every field passes and strict mode finds no extra key, the result is the dict the walk built; in strict mode any extra key is reported after the walk |
| SchemaValidator.MissingRequiredBeforeExtraKeys | src/schema_validator.py:37-66 | the first missing required field is reported even when there are extra keys too |
| SchemaValidator.LenientSchemaDropsExtras | src/schema_validator.py:14-68 | with an empty schema, non-strict validation returns an empty dict and strict validation rejects any non-empty data |
| FactoryFunctions.CreateValidationEngine | src/factory_functions.py:9-20 | the engine carries exactly the configuration given, and the built-in validators |
| FactoryFunctions.CreateLenientEngine | src/factory_functions.py:22-27 | the engine is non-strict and does not raise, but still extracts names |
| FactoryFunctions.CreateCustomValidatorEngine | src/factory_functions.py:29-33 | the registry is the built-ins merged with the custom validators, which win on clashes; the configuration is the default |
| FactoryFunctions.LenientNeverRaises | src/factory_functions.py:22-27 | a lenient engine turns every rejection into False and never raises its configured error class |

## Left out

- `assert_path(create_parents=True)` (type_validation_engine.py:177-182): creating directories is file-system I/O. The file system is an immutable snapshot `Validators.Fs`.
- `ValidationPatterns.validate_email` and `validate_url` (utils.py:11-43): both are regular-expression matches, and the regex engine is not modelled.
- Frame inspection, `ast.parse` and the fallback regular expressions in `VariableNameExtractor` are inputs. Their results arrive as a `NameExtractor.FrameInfo` (the parse tree and the captured group).
- Python type hints that are typing generics (`List[int]`, `Optional[str]`) are not modelled as expected types. Only classes, lists of classes and tuples of classes are.
- Custom validators registered through `create_custom_validator_engine` are opaque names. Their behaviour is foreign code.
- `PyText.FloatText` prints floats as exact decimals, not with Python's shortest round-trip `repr`. Non-ASCII characters in `repr` are not escaped as Python would.
- Path normalisation (`Path("a//b")`, a trailing slash) is not modelled: a path is its text.
- Extra-key order: `SchemaValidator.ExtraKeys` keeps the data's key order. Python's `set` difference order is unspecified.
- `SchemaValidator.GetItem` renders a `KeyError` as a TypeError. This is unreachable: the walk only reads keys it has checked are present.
- Instances of user classes (`PyObject`) have no `__len__`, ordering, `__contains__` or `strip`.
- The texts of Python's own TypeError and AttributeError messages are written as recent CPython versions word them; other versions word some of them differently.
- ValidationContext.Overridden requires a `custom_error_class` override to be an exception class. An override of another kind would make Python raise at the first failure; that case is not modelled.
- TypeValidationDecorator.Outcomes checks every hinted argument before picking the first failure, whereas Python stops at the first. Checks have no side effects, so the outcome is the same.
- ValidationContext.Overridden reads a flag override as a boolean. Python would also accept any other value (0, "", None) and use its truth value; such values are not modelled. An exception class given for a flag keyword counts as true.
- Concurrency: the engine is used by one thread. Context managers shared across threads are not modelled.
- The older duplicates in `src/core.py`, `src/decorator.py` and `src/type_guard.py` are not modelled separately: they repeat the package code. `src/utils.py` differs in one way: a missing engine means one shared module-level `_default_engine` (utils.py:9, 96, 169), where the package builds a fresh `TypeValidationEngine()` per call. Its helpers are not modelled separately either. `src/gerg_type_validation/assertions.py` (module-level convenience wrappers over a global engine) is not part of this model.
- Validators.RangeValidate: floats are exact reals, so NaN and the infinities are not modelled. In Python every comparison with NaN is false, so NaN passes any bound (validators.py:59-62).
- ValidationEngine.AssertNumeric: does not model NaN or the infinities; a NaN passes every bound in Python.
- ValidationEngine.AssertRange: does not model NaN or the infinities; a NaN passes every bound in Python.
- ValidationPatterns.ValidatePositiveNumber: does not model NaN; in Python `float('nan')` is accepted as positive.
- ValidationPatterns.ValidateNonNegativeNumber: does not model NaN; in Python `float('nan')` is accepted as non-negative.
- ValidationPatterns.ValidatePercentage: does not model NaN; in Python `float('nan')` is accepted as a percentage.
- Validators.ConvertToPath: a bytes value takes the corrected path, not the one as written (see "## Findings"). The decoding maps each byte to the character with the same code (Latin-1). Python's `os.fsdecode` decodes UTF-8 with `surrogateescape`, which differs for bytes above 127.
- Validators.PathValidate: follows the corrected bytes conversion of `Validators.ConvertToPath`, not `Path(str(value))` (validators.py:119).
- ValidationEngine.AssertPath: follows the corrected bytes conversion; the code as written is `ValidationEngine.AssertPathAsWritten` (type_validation_engine.py:164).
- ValidationEngine.ValidateWith: the assertions always run the built-in validator for their kind. Python looks it up in the registry at call time (`self.validators[validator_name]`, type_validation_engine.py:56), so a custom validator registered under "type", "range", "length" or "path" would replace the built-in one. Custom validators are foreign code.
- BatchValidator.ValidateAll: the batch holds the engine's configuration as a value taken at construction. Python keeps a reference to the engine and reads `self.engine.config.custom_error_class` when `validate_all` runs (utils.py:101), so an error class changed in between is seen there and not in the model.
- ValidationContext.CapturedAtConstruction: only replacing `engine.config` is modelled. Python saves a reference to the configuration object (validation_context.py:12), so a field changed in place on that object survives the restore at exit.
- NameExtractor.Walk: the expression-context nodes (`Load`, `Store`) under names, attributes and subscripts are not in the tree. They are never calls, so they do not change which call is found first.

## Findings

| source | as written | input that shows it | evidently intended | confidence | as-written member | corrected member |
|---|---|---|---|---|---|---|
| src/gerg_type_validation/validators.py:119 | a bytes value becomes a path through `Path(str(value))`, and `str()` of bytes is their repr | `b"/tmp"` becomes the path `b'/tmp'` | decode the bytes, giving `/tmp` | not executed | Validators.BytesPathAsWrittenIsMangled | Validators.ConvertToPath |
| src/gerg_type_validation/type_validation_engine.py:164 | `assert_path` turns a bytes value into a path through `Path(str(value))` | `b"/tmp"`, an existing directory, with `must_exist=True`: the assertion looks for `b'/tmp'` and fails | decode the bytes, so that `/tmp` passes | not executed | ValidationEngine.BytesAssertPathAsWrittenFails | ValidationEngine.AssertPath |
