# Presentation Exchange: submission metadata and validation verdicts

A Dafny model of two pure pieces of verite's Presentation Exchange flow:

- **Submission builder** (`SubmissionBuilder`, `presentation_submission.dfy`). `buildPresentationSubmission`
  builds the `presentation_submission` metadata `{id, definition_id, descriptor_map}` for a presentation
  definition. The descriptor map has one entry per input descriptor, in order. Each entry is
  `{id: d.id, format: "jwt_vc", path: "$.verifiableCredential[0]"}`. The metadata then goes to the
  presentation encoder under the key `presentation_submission`, with the types
  `["VerifiablePresentation", "PresentationSubmission"]`. The random `uuidv4()` id is a parameter
  (`freshId`). The model stops at the request handed to the encoder (`EncoderRequest`).
- **Verdict shape** (`Validators`, `validators.dfy`). It covers `FieldConstraintEvaluation` (a sum type:
  a success record or a list of failed attempts), `CredentialResults` and `ValidationCheck`, with the
  derived accessors `results()`, `errors()` and `accepted()`. The module `ValidatorCases`
  (`validator_cases.dfy`) restates the concrete verdicts the test file asserts. The success case also
  states `accepted()` and `errors() == []`, and the failure case also states `!accepted()`. The test file
  does not assert these three facts; they follow from this model's reading of `accepted()` below.
- `PresentationExchange` (`presentation_exchange.dfy`) holds the shared data model. `Wrappers` holds
  `Option` (the source's `null`) and `Result`.

The classes behind `ValidationCheck` are not part of this model; only their test file is. The accessors
satisfy every assertion of the test file, and where it is silent the model reads them as follows:
- `accepted()` holds when every evaluation of every credential result passed.
- `errors()` is empty when the check is accepted. Otherwise it is exactly one error for the check's input
  descriptor, with the message "Credential failed to meet criteria specified by input descriptor " followed
  by the id (one error per failing descriptor, not per failing field).
- `results()` lists every credential result in order, tagged with the descriptor id, whatever the verdict.

A positional binding would map each descriptor to the credential at its own position when several
credentials are submitted. The code does not do this: it always writes `$.verifiableCredential[0]`
(presentation-submission.ts:30), whether one credential or an array is passed. The model follows the code,
and `SubmissionIgnoresCredentials` states it.

## Model

| member | source | states |
|---|---|---|
| `SubmissionBuilder.DescriptorMapOf` | packages/verite/lib/verifier/presentation-submission.ts:25-33 | the map has one entry per input descriptor; entry i carries descriptor i's id; every entry has format `jwt_vc` and path `$.verifiableCredential[0]` |
| `SubmissionBuilder.BuildSubmission` | packages/verite/lib/verifier/presentation-submission.ts:22-34 | the submission's id is the supplied fresh id, its definition_id is the definition's id, and its descriptor map matches the input descriptors in length, order and id, each entry with the fixed format and path |
| `SubmissionBuilder.BuildPresentationRequest` | packages/verite/lib/verifier/presentation-submission.ts:36-43 | the encoder gets the credentials unchanged, the type list `["VerifiablePresentation", "PresentationSubmission"]`, and an extension whose only key is `presentation_submission`, holding the built submission |
| `SubmissionBuilder.DescriptorMapIds` | packages/verite/lib/verifier/presentation-submission.ts:25-28 | the ids of the descriptor map equal the ids of the input descriptors, as whole sequences in the same order |
| `SubmissionBuilder.BuiltSubmissionCovers` | packages/verite/lib/verifier/presentation-submission.ts:22-34 | every built submission names its definition and binds entry i to input descriptor i, which is the positional correspondence a receiver relies on |
| `SubmissionBuilder.EntriesReferenceDescriptors` | packages/verite/lib/verifier/presentation-submission.ts:25-28 | every descriptor map entry references an input descriptor that exists in the definition |
| `SubmissionBuilder.DescriptorMapDependsOnIds` | packages/verite/lib/verifier/presentation-submission.ts:25-33 | two descriptor lists with the same ids give the same descriptor map; the constraints of a descriptor do not affect it |
| `SubmissionBuilder.SubmissionDependsOnlyOnIds` | packages/verite/lib/verifier/presentation-submission.ts:22-34 | the submission depends only on the fresh id, the definition id and the descriptor ids |
| `SubmissionBuilder.SubmissionIgnoresCredentials` | packages/verite/lib/verifier/presentation-submission.ts:17-30 | one credential or an array gives the same metadata, and every entry points at `$.verifiableCredential[0]` with format `jwt_vc` |
| `SubmissionBuilder.SubmissionIdIsFresh` | packages/verite/lib/verifier/presentation-submission.ts:23 | the submission id is the supplied id whatever the definition; submissions for definitions with different ids differ |
| `Validators.NewFieldConstraintEvaluation` | packages/demo-site/test/lib/validators.test.ts:93-122 | the constructor succeeds exactly when one of the success record and the failure list is given and the other is null; the result gives back the field and both arguments; giving both is a distinct error |
| `Validators.ExactlyOneOfMatchOrAttempts` | packages/demo-site/test/lib/validators.test.ts:93-97 | an evaluation exposes exactly one of a `match` record and a failure list, and it passed exactly when it has a `match` |
| `Validators.ConstructorRoundTrip` | packages/demo-site/test/lib/validators.test.ts:118-122 | reading an evaluation back as the constructor's nullable arguments and constructing again gives the same evaluation |
| `Validators.Match` | packages/demo-site/test/lib/validators.test.ts:104-105 | the `match` property is present exactly when the failure list is absent; the record and the field determine the evaluation |
| `Validators.Accepted` | packages/demo-site/test/lib/validators.test.ts:58 | `accepted()` holds exactly when every credential result of the check passed |
| `Validators.EmptyCheckAccepted` | packages/demo-site/test/lib/validators.test.ts:98-100 | a check built with an empty list of credential results is accepted and has no errors |
| `Validators.CredentialWithoutEvaluationsPasses` | packages/demo-site/test/lib/validators.test.ts:99 | a credential result built with an empty list of evaluations passes |
| `Validators.Failures` | packages/demo-site/test/lib/validators.test.ts:113-122 | the failures of a list of evaluations are exactly those of its evaluations that did not pass, and there are no more of them than evaluations |
| `Validators.CredentialPassedIff` | packages/demo-site/test/lib/validators.test.ts:98-100 | a credential result passed exactly when each of its evaluations passed |
| `Validators.AllCredentialsPassedIff` | packages/demo-site/test/lib/validators.test.ts:57-58 | a list of credential results all passed exactly when each one did |
| `Validators.AcceptedIffNoFailedEvaluation` | packages/demo-site/test/lib/validators.test.ts:57-61 | `accepted()` holds exactly when no evaluation of any credential result failed |
| `Validators.Errors` | packages/demo-site/test/lib/validators.test.ts:128-131 | `errors()` is empty exactly when the check is accepted; otherwise it has one error, for the check's descriptor id, with the templated message |
| `Validators.AcceptedIffNoErrors` | packages/demo-site/test/lib/validators.test.ts:58-61 | `accepted()` true gives `errors() == []`, and the converse |
| `Validators.FailedEvaluationYieldsError` | packages/demo-site/test/lib/validators.test.ts:113-131 | one failed evaluation in any credential result makes `errors()` exactly the one templated error for the descriptor |
| `Validators.Results` | packages/demo-site/test/lib/validators.test.ts:101-105 | `results()` has one entry per credential result, in order; each entry carries the check's descriptor id and that credential's evaluations unchanged |
| `Validators.RejectionIsExplained` | packages/demo-site/test/lib/validators.test.ts:124-131 | when `errors()` is not empty, `results()` contains an evaluation that failed, with its list of attempts |
| `Validators.SingleEvaluationCheck` | packages/demo-site/test/lib/validators.test.ts:63-67 | a check over one credential result holding one evaluation has one result, tagged with the given id, holding that one evaluation; it is accepted and has no errors exactly when the evaluation passed |
| `ValidatorCases.SuccessfulMatchFormatting` | packages/demo-site/test/lib/validators.test.ts:86-106 | for the success case, results()[0] has id `id1` and its evaluation's match is `{path: "string1", value: "test1"}` unchanged; the check is accepted with no errors |
| `ValidatorCases.FailedMatchFormatting` | packages/demo-site/test/lib/validators.test.ts:108-132 | for the two failed attempts, `errors()` is not empty and its first message is "Credential failed to meet criteria specified by input descriptor id1" |
| `ValidatorCases.VerificationSubmissionAccessors` | packages/demo-site/test/lib/validators.test.ts:57-68 | a check for `kycaml_input` over one credential whose one evaluation matched at `$.issuer.id` is accepted, has no errors, and has one result with one evaluation whose match path is `$.issuer.id` |

## Left out

- `buildIssuer`, `encodeVerifiablePresentation` and ES256K/JWT signing (presentation-submission.ts:20, :36-45): cryptography and foreign library calls. The model ends at the `EncoderRequest` handed to the encoder. The holder's signer and the `options` argument are not modelled.
- `uuidv4()` (presentation-submission.ts:23): randomness. It is the `freshId` parameter.
- Positional mapping of several credentials: the code does not do it (see above).
- `processVerificationSubmission`, `processCredentialApplication`, `validateCredentialSubmission`, path resolution and filter semantics: their code is not part of this model. The structural error for a descriptor map that does not cover the definition is not modelled either. `CoversDefinition` only states what such a check would require.
- The verification-submission and credential-application cases (validators.test.ts:21-84): DID key generation, manifest and definition lookup, user factory, revocation list, fulfillment issuance and presentation decoding are I/O and crypto. Only the accessor assertions of :57-68 are kept, restated over a check of the shape they assert. The return type of `processVerificationSubmission` is not shown, so it is modelled as a `ValidationCheck`. The `accepted()` assertion at :83 is about a credential application, whose processing is not part of this model, so no member states it.
- `ValidationCheck` for several credential results: whether one passing credential is enough or all must pass is not shown. The model requires all of them. Under that reading a check with no credential results, and a credential result with no evaluations, are accepted with no errors (`EmptyCheckAccepted`, `CredentialWithoutEvaluationsPasses`). Nothing shown decides these two edge cases.
- `PathEvaluation.matched` is carried and never read: whether an evaluation passed is decided by its `Outcome` alone. So a success record flagged `match: false` still passes. `NewFieldConstraintEvaluation` accepts an empty failure list, since the test file shows no check on it.
- `CredentialResults.credential` stands for the credential object, which may be null. It is modelled as an optional string, because no accessor reads it.
- Values of path evaluations are strings, the only values the test file uses; arbitrary JSON values are not modelled.
- demo-site `auth-fns.ts` (session lookup, redirects) and `pages/admin/index.tsx` (React UI): I/O, auth and UI outside the core.
