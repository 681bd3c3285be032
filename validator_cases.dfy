/**
 * The concrete verdicts that packages/demo-site/test/lib/validators.test.ts
 * pins down, stated over the model of the accessors.
 */
module ValidatorCases {
  import opened Wrappers
  import opened PresentationExchange
  import opened Validators

  /** The constraint field both formatting cases use. */
  const SuitabilityField: InputDescriptorConstraintField :=
    InputDescriptorConstraintField(["path1", "path2", "path3"], Some("checks that input is suitable"))

  /** The formatting case for a successful match: the success record comes back unchanged. */
  lemma SuccessfulMatchFormatting()
    ensures var built := NewFieldConstraintEvaluation(SuitabilityField, Some(PathEvaluation("string1", true, "test1")), None);
      built.Ok? &&
      var vc := ValidationCheck("id1", [CredentialResults(None, [built.value])]);
      var results := Results(vc);
      results[0].inputDescriptorId == "id1" &&
      Match(results[0].results[0]) == Some(PathEvaluation("string1", true, "test1")) &&
      Accepted(vc) && Errors(vc) == []
  {
  }

  /** The formatting case for failed matches: the error carries the templated message. */
  lemma FailedMatchFormatting()
    ensures var attempts := [PathEvaluation("string1", false, "test1"), PathEvaluation("string1", false, "test2")];
      var built := NewFieldConstraintEvaluation(SuitabilityField, None, Some(attempts));
      built.Ok? &&
      var vc := ValidationCheck("id1", [CredentialResults(None, [built.value])]);
      Errors(vc) != [] &&
      Errors(vc)[0].message == "Credential failed to meet criteria specified by input descriptor id1" &&
      !Accepted(vc)
  {
  }

  /**
   * The accessor assertions of the verification-submission case: a check for
   * `kycaml_input` over one credential whose one evaluation matched at
   * `$.issuer.id` is accepted, has no errors and one result with one evaluation.
   */
  lemma VerificationSubmissionAccessors(credential: Option<string>, field: InputDescriptorConstraintField, value: string)
    ensures var e := FieldConstraintEvaluation(field, Matched(PathEvaluation("$.issuer.id", true, value)));
      var vc := ValidationCheck("kycaml_input", [CredentialResults(credential, [e])]);
      Accepted(vc) && Errors(vc) == [] &&
      |Results(vc)| == 1 && Results(vc)[0].inputDescriptorId == "kycaml_input" &&
      |Results(vc)[0].results| == 1 && Match(Results(vc)[0].results[0]).value.path == "$.issuer.id"
  {
  }
}
