/**
 * The verdict shape of Presentation Exchange validation: a field constraint
 * evaluation (a match or the failed attempts), the evaluations for one
 * credential, and the validation check for one input descriptor with its
 * derived accessors `results()`, `errors()` and `accepted()`.
 *
 * The classes' implementation is not part of this model; their behaviour is
 * the one packages/demo-site/test/lib/validators.test.ts asserts. All values
 * are immutable and every accessor is a function of the stored lists.
 */
module Validators {
  import opened Wrappers
  import opened PresentationExchange

  /**
   * One path tried against a credential: `{path, match, value}`. The `matched`
   * flag is carried as given and never read: whether an evaluation passed is
   * decided by its `Outcome` alone.
   */
  datatype PathEvaluation = PathEvaluation(path: string, matched: bool, value: string)

  /** Exactly one of a success record or the list of failed attempts. */
  datatype Outcome = Matched(success: PathEvaluation) | Unmatched(attempts: seq<PathEvaluation>)

  /** The result of evaluating one constraint field against one credential. */
  datatype FieldConstraintEvaluation = FieldConstraintEvaluation(field: InputDescriptorConstraintField, outcome: Outcome)

  /** All evaluations for one credential; the credential itself may be absent. */
  datatype CredentialResults = CredentialResults(credential: Option<string>, fieldChecks: seq<FieldConstraintEvaluation>)

  /** The verdict for one input descriptor over the credentials offered for it. */
  datatype ValidationCheck = ValidationCheck(inputDescriptorId: string, credentialResults: seq<CredentialResults>)

  /** An entry of `results()`: `{inputDescriptorId, results}`. */
  datatype CredentialMatch = CredentialMatch(inputDescriptorId: string, results: seq<FieldConstraintEvaluation>)

  /** An entry of `errors()`: `{inputDescriptorId, message}`. */
  datatype ValidationError = ValidationError(inputDescriptorId: string, message: string)

  /** Why the nullable constructor arguments do not make an evaluation. */
  datatype ConstructionError = BothGiven | NeitherGiven

  const FailurePrefix: string := "Credential failed to meet criteria specified by input descriptor "

  /**
   * `new FieldConstraintEvaluation(field, match, peArray)` (the success record
   * is `match`), where exactly one of the two is non-null. The two error cases
   * are this model's own: the sum type cannot hold both or neither. A failure
   * list is taken as given, an empty one included.
   */
  function NewFieldConstraintEvaluation(field: InputDescriptorConstraintField, success: Option<PathEvaluation>, peArray: Option<seq<PathEvaluation>>)
    : (r: Result<FieldConstraintEvaluation, ConstructionError>)
    ensures r.Ok? <==> success.Some? != peArray.Some?
    ensures r.Ok? ==> r.value.field == field && Match(r.value) == success && Attempts(r.value) == peArray
    ensures r == Err(BothGiven) <==> success.Some? && peArray.Some?
  {
    match (success, peArray)
    case (Some(m), None) => Ok(FieldConstraintEvaluation(field, Matched(m)))
    case (None, Some(ps)) => Ok(FieldConstraintEvaluation(field, Unmatched(ps)))
    case (Some(_), Some(_)) => Err(BothGiven)
    case (None, None) => Err(NeitherGiven)
  }

  /**
   * The evaluation's `match` property: the success record, or null. It is
   * present exactly when the failure list is absent, and the record together
   * with the field determines the evaluation.
   */
  function Match(e: FieldConstraintEvaluation): (r: Option<PathEvaluation>)
    ensures r.Some? <==> Attempts(e).None?
    ensures r.Some? ==> e == FieldConstraintEvaluation(e.field, Matched(r.value))
  {
    if e.outcome.Matched? then Some(e.outcome.success) else None
  }

  /** The evaluation's failed attempts, or null. */
  function Attempts(e: FieldConstraintEvaluation): Option<seq<PathEvaluation>>
  {
    if e.outcome.Unmatched? then Some(e.outcome.attempts) else None
  }

  /** Whether the field constraint was met. */
  predicate Passed(e: FieldConstraintEvaluation)
  {
    e.outcome.Matched?
  }

  /** The failed evaluations of a list. */
  function Failures(es: seq<FieldConstraintEvaluation>): (r: seq<FieldConstraintEvaluation>)
    ensures |r| <= |es|
    ensures forall e :: e in r <==> e in es && !Passed(e)
  {
    if es == [] then []
    else if Passed(es[0]) then Failures(es[1..])
    else [es[0]] + Failures(es[1..])
  }

  /** Whether every field constraint was met by this credential. */
  predicate CredentialPassed(cr: CredentialResults)
  {
    Failures(cr.fieldChecks) == []
  }

  /** Whether every credential in a list met every field constraint. */
  predicate AllCredentialsPassed(crs: seq<CredentialResults>)
  {
    crs == [] || (CredentialPassed(crs[0]) && AllCredentialsPassed(crs[1..]))
  }

  /** `accepted()`: every credential result offered for the descriptor passed. */
  predicate Accepted(vc: ValidationCheck)
    ensures Accepted(vc) <==>
      forall i :: 0 <= i < |vc.credentialResults| ==> CredentialPassed(vc.credentialResults[i])
  {
    AllCredentialsPassedIff(vc.credentialResults);
    AllCredentialsPassed(vc.credentialResults)
  }

  /** The templated message for a descriptor that was not met. */
  function FailureMessage(inputDescriptorId: string): string
  {
    FailurePrefix + inputDescriptorId
  }

  /** `errors()`: one error for the check's descriptor when it is not accepted. */
  function Errors(vc: ValidationCheck): (r: seq<ValidationError>)
    ensures r == [] <==> Accepted(vc)
    ensures |r| <= 1
    ensures forall err :: err in r ==>
      err.inputDescriptorId == vc.inputDescriptorId &&
      err.message == "Credential failed to meet criteria specified by input descriptor " + vc.inputDescriptorId
  {
    if Accepted(vc) then [] else [ValidationError(vc.inputDescriptorId, FailureMessage(vc.inputDescriptorId))]
  }

  /** The `results()` entries for a list of credential results, tagged with `id`. */
  function ResultsOf(id: string, crs: seq<CredentialResults>): (r: seq<CredentialMatch>)
    ensures |r| == |crs|
    ensures forall i :: 0 <= i < |crs| ==> r[i].inputDescriptorId == id && r[i].results == crs[i].fieldChecks
  {
    if crs == [] then [] else [CredentialMatch(id, crs[0].fieldChecks)] + ResultsOf(id, crs[1..])
  }

  /** `results()`: every credential's evaluations, in order, whatever the verdict. */
  function Results(vc: ValidationCheck): (r: seq<CredentialMatch>)
    ensures |r| == |vc.credentialResults|
    ensures forall i :: 0 <= i < |r| ==>
      r[i].inputDescriptorId == vc.inputDescriptorId && r[i].results == vc.credentialResults[i].fieldChecks
  {
    ResultsOf(vc.inputDescriptorId, vc.credentialResults)
  }

  /** An evaluation holds exactly one of a match and a failure list. */
  lemma ExactlyOneOfMatchOrAttempts(e: FieldConstraintEvaluation)
    ensures Match(e).Some? != Attempts(e).Some?
    ensures Passed(e) <==> Match(e).Some?
  {
  }

  /** Reading an evaluation back as nullable arguments rebuilds it. */
  lemma ConstructorRoundTrip(e: FieldConstraintEvaluation)
    ensures NewFieldConstraintEvaluation(e.field, Match(e), Attempts(e)) == Ok(e)
  {
  }

  /** A credential passed exactly when every evaluation it holds passed. */
  lemma CredentialPassedIff(cr: CredentialResults)
    ensures CredentialPassed(cr) <==> forall j :: 0 <= j < |cr.fieldChecks| ==> Passed(cr.fieldChecks[j])
  {
    if !CredentialPassed(cr) {
      assert Failures(cr.fieldChecks)[0] in Failures(cr.fieldChecks);
    }
  }

  /** A list of credentials all passed exactly when each one did. */
  lemma {:induction false} AllCredentialsPassedIff(crs: seq<CredentialResults>)
    ensures AllCredentialsPassed(crs) <==> forall i :: 0 <= i < |crs| ==> CredentialPassed(crs[i])
  {
    if crs != [] {
      AllCredentialsPassedIff(crs[1..]);
      assert forall i :: 1 <= i < |crs| ==> crs[i] == crs[1..][i - 1];
    }
  }

  /** `accepted()` holds exactly when no evaluation of any credential failed. */
  lemma AcceptedIffNoFailedEvaluation(vc: ValidationCheck)
    ensures Accepted(vc) <==>
      forall i, j :: 0 <= i < |vc.credentialResults| && 0 <= j < |vc.credentialResults[i].fieldChecks| ==>
        Passed(vc.credentialResults[i].fieldChecks[j])
  {
    var crs := vc.credentialResults;
    AllCredentialsPassedIff(crs);
    forall i | 0 <= i < |crs| {
      CredentialPassedIff(crs[i]);
    }
  }

  /** When `accepted()` is true, `errors()` is empty, and conversely. */
  lemma AcceptedIffNoErrors(vc: ValidationCheck)
    ensures Accepted(vc) <==> Errors(vc) == []
  {
  }

  /** One failed evaluation anywhere is enough for the templated error. */
  lemma FailedEvaluationYieldsError(vc: ValidationCheck, i: nat, j: nat)
    requires i < |vc.credentialResults| && j < |vc.credentialResults[i].fieldChecks|
    requires !Passed(vc.credentialResults[i].fieldChecks[j])
    ensures Errors(vc) == [ValidationError(vc.inputDescriptorId,
      "Credential failed to meet criteria specified by input descriptor " + vc.inputDescriptorId)]
  {
    AcceptedIffNoFailedEvaluation(vc);
  }

  /** A check that is not accepted shows, through `results()`, an evaluation that failed with its attempts. */
  lemma RejectionIsExplained(vc: ValidationCheck)
    requires Errors(vc) != []
    ensures exists i, j ::
      (0 <= i < |Results(vc)| && 0 <= j < |Results(vc)[i].results| && Attempts(Results(vc)[i].results[j]).Some?)
  {
    AcceptedIffNoFailedEvaluation(vc);
    var i, j :| 0 <= i < |vc.credentialResults| && 0 <= j < |vc.credentialResults[i].fieldChecks| &&
      !Passed(vc.credentialResults[i].fieldChecks[j]);
    assert Attempts(Results(vc)[i].results[j]).Some?;
  }

  /** A check with no credential results at all is accepted, with no errors. */
  lemma EmptyCheckAccepted(id: string)
    ensures Accepted(ValidationCheck(id, [])) && Errors(ValidationCheck(id, [])) == []
  {
  }

  /** A credential result holding no evaluations passes. */
  lemma CredentialWithoutEvaluationsPasses(credential: Option<string>)
    ensures CredentialPassed(CredentialResults(credential, []))
  {
  }

  /** A check over one credential with one evaluation: the shape the accessors expose. */
  lemma SingleEvaluationCheck(id: string, credential: Option<string>, e: FieldConstraintEvaluation)
    ensures var vc := ValidationCheck(id, [CredentialResults(credential, [e])]);
      |Results(vc)| == 1 && Results(vc)[0].inputDescriptorId == id &&
      |Results(vc)[0].results| == 1 && Results(vc)[0].results[0] == e &&
      (Accepted(vc) <==> Passed(e)) &&
      (Errors(vc) == [] <==> Passed(e))
  {
    var vc := ValidationCheck(id, [CredentialResults(credential, [e])]);
    AcceptedIffNoFailedEvaluation(vc);
  }
}
