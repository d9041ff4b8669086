/** `BatchValidator`: runs validations without stopping at the first
    failure, collecting each exception's text, and reports them together. */
module BatchValidator {
  import opened Wrappers
  import opened PyText
  import opened PyValues
  import opened Errors
  import opened ValidationConfig
  import opened ValidationEngine

  /** The engine's configuration (only its error class is read) and the
      collected error texts, oldest first. */
  datatype Batch = Batch(config: Config, errors: seq<string>)

  /** `BatchValidator(engine)`: a fresh engine when none is given. */
  function NewBatch(engine: Option<Engine>): (b: Batch)
    ensures b.errors == []
    ensures engine.Some? ==> b.config == engine.value.config
    ensures engine.None? ==> b.config == NewConfig()
  {
    Batch(if engine.Some? then engine.value.config else NewEngine(None).config, [])
  }

  /** `add_validation`: the validation has already run and its outcome is
      passed in; a raised exception is swallowed and its text recorded. */
  function AddValidation<T>(b: Batch, outcome: Result<T, Exc>): (r: Batch)
    ensures r.config == b.config
    ensures outcome.Success? ==> r.errors == b.errors
    ensures outcome.Failure? ==> r.errors == b.errors + [outcome.error.msg]
  {
    if outcome.Failure? then b.(errors := b.errors + [outcome.error.msg]) else b
  }

  /** Each error as an indented bullet. */
  function Bullets(errors: seq<string>): (r: seq<string>)
    ensures |r| == |errors|
    ensures forall i :: 0 <= i < |r| ==> r[i] == "  - " + errors[i]
  {
    if errors == [] then [] else ["  - " + errors[0]] + Bullets(errors[1..])
  }

  /** The report raised by `validate_all`. */
  function BatchMessage(errors: seq<string>): string {
    "Batch validation failed:\n" + Join(Bullets(errors), "\n")
  }

  /** `validate_all`: raise the configured exception with the report when
      there are errors and raising is asked for (whatever the configuration's
      `raiseOnFailure`); otherwise say whether the batch is clean. */
  function ValidateAll(b: Batch, raiseOnError: bool): (r: Result<bool, Exc>)
    ensures r.Success? <==> b.errors == [] || !raiseOnError
    ensures r.Success? ==> (r.value <==> b.errors == [])
    ensures r.Failure? ==> r.error == Raised(b.config.errorClass, BatchMessage(b.errors))
  {
    if b.errors != [] && raiseOnError then Failure(Raised(b.config.errorClass, BatchMessage(b.errors)))
    else Success(|b.errors| == 0)
  }

  /** `get_errors`: a copy of the collected texts. */
  function GetErrors(b: Batch): (r: seq<string>)
    ensures |r| == |b.errors| && forall i :: 0 <= i < |r| ==> r[i] == b.errors[i]
  {
    b.errors
  }

  /** `clear_errors`: forget the collected texts; the batch is clean again. */
  function ClearErrors(b: Batch): (r: Batch)
    ensures r.errors == [] && r.config == b.config
    ensures ValidateAll(r, true) == Success(true)
  {
    b.(errors := [])
  }

  /** The report for one error, and for one more error than before: each new
      error adds one line at the end. */
  lemma BatchMessageLines(errors: seq<string>, e: string)
    ensures BatchMessage([e]) == "Batch validation failed:\n  - " + e
    ensures errors != [] ==> BatchMessage(errors + [e]) == BatchMessage(errors) + "\n  - " + e
  {
    assert Bullets([e]) == ["  - " + e];
    if errors != [] {
      var bs := Bullets(errors + [e]);
      assert bs == Bullets(errors) + ["  - " + e];
      JoinSnoc(Bullets(errors), "  - " + e, "\n");
    }
  }

  /** The texts of the failed outcomes, in order. */
  function FailureMessages<T>(outcomes: seq<Result<T, Exc>>): (r: seq<string>)
    ensures |r| <= |outcomes|
    ensures r == [] <==> forall i :: 0 <= i < |outcomes| ==> outcomes[i].Success?
  {
    if outcomes == [] then []
    else
      var rest := FailureMessages(outcomes[1..]);
      assert forall i :: 1 <= i < |outcomes| ==> outcomes[i] == outcomes[1..][i - 1];
      if outcomes[0].Failure? then [outcomes[0].error.msg] + rest else rest
  }

  /** `add_validation` once per outcome, in order. */
  function AddAll<T>(b: Batch, outcomes: seq<Result<T, Exc>>): Batch
    decreases |outcomes|
  {
    if outcomes == [] then b else AddAll(AddValidation(b, outcomes[0]), outcomes[1..])
  }

  /** After a run of validations the batch holds exactly the failures'
      texts, in the order the validations ran, after what it held before. */
  lemma {:induction false} AddAllCollectsFailures<T>(b: Batch, outcomes: seq<Result<T, Exc>>)
    ensures AddAll(b, outcomes).errors == b.errors + FailureMessages(outcomes)
    ensures AddAll(b, outcomes).config == b.config
    decreases |outcomes|
  {
    if outcomes != [] {
      AddAllCollectsFailures(AddValidation(b, outcomes[0]), outcomes[1..]);
      if outcomes[0].Failure? {
        assert b.errors + [outcomes[0].error.msg] + FailureMessages(outcomes[1..])
            == b.errors + FailureMessages(outcomes);
      }
    }
  }

  /** A fresh batch passes `validate_all` exactly when every validation
      added to it passed; otherwise it raises with one line per failure. */
  lemma BatchPassesIffAllPass<T>(engine: Option<Engine>, outcomes: seq<Result<T, Exc>>)
    ensures var b := AddAll(NewBatch(engine), outcomes);
            && (ValidateAll(b, true) == Success(true) <==> forall i :: 0 <= i < |outcomes| ==> outcomes[i].Success?)
            && (ValidateAll(b, false) == Success(true) <==> forall i :: 0 <= i < |outcomes| ==> outcomes[i].Success?)
            && (ValidateAll(b, true).Failure? ==>
                  ValidateAll(b, true).error.msg == BatchMessage(FailureMessages(outcomes)))
  {
    var b := AddAll(NewBatch(engine), outcomes);
    AddAllCollectsFailures(NewBatch(engine), outcomes);
    assert b.errors == FailureMessages(outcomes);
  }
}
