/**
 * Building the `presentation_submission` metadata for a definition
 * (packages/verite/lib/verifier/presentation-submission.ts).
 *
 * The random submission id is a parameter, and the signing encoder is left
 * out: the model stops at the request handed to it.
 */
module SubmissionBuilder {
  import opened PresentationExchange

  /** The format tag given to every descriptor map entry. */
  const JwtVcFormat: string := "jwt_vc"

  /** The envelope path given to every descriptor map entry, however many credentials are sent. */
  const FirstCredentialPath: string := "$.verifiableCredential[0]"

  /** The presentation types passed to the encoder. */
  const PresentationTypes: seq<string> := ["VerifiablePresentation", "PresentationSubmission"]

  /** The key under which the submission is embedded in the presentation. */
  const SubmissionKey: string := "presentation_submission"

  /** The credential argument: one credential, or an array of them. */
  datatype CredentialArgument<C> = Single(credential: C) | Multiple(credentials: seq<C>)

  /** What the builder hands to the presentation encoder besides the holder's signer. */
  datatype EncoderRequest<C> = EncoderRequest(
    credentials: CredentialArgument<C>,
    types: seq<string>,
    extension: map<string, PresentationSubmission>
  )

  /** The entry built for one input descriptor. */
  function DescriptorEntry(d: InputDescriptor): DescriptorMap
  {
    DescriptorMap(d.id, JwtVcFormat, FirstCredentialPath)
  }

  /** Whether an entry has the fixed format and path the builder always uses. */
  predicate IsConventional(e: DescriptorMap)
  {
    e.format == JwtVcFormat && e.path == FirstCredentialPath
  }

  /** The descriptor map of a submission: `input_descriptors.map(...)`. */
  function DescriptorMapOf(ds: seq<InputDescriptor>): (m: seq<DescriptorMap>)
    ensures |m| == |ds|
    ensures forall i :: 0 <= i < |ds| ==> m[i].id == ds[i].id
    ensures forall i :: 0 <= i < |m| ==> IsConventional(m[i])
  {
    if ds == [] then [] else [DescriptorEntry(ds[0])] + DescriptorMapOf(ds[1..])
  }

  /** The submission metadata for `definition`, with `freshId` in place of `uuidv4()`. */
  function BuildSubmission(freshId: string, definition: PresentationDefinition): (s: PresentationSubmission)
    ensures s.id == freshId
    ensures s.definitionId == definition.id
    ensures |s.descriptorMap| == |definition.inputDescriptors|
    ensures forall i :: 0 <= i < |s.descriptorMap| ==>
      s.descriptorMap[i].id == definition.inputDescriptors[i].id && IsConventional(s.descriptorMap[i])
  {
    PresentationSubmission(freshId, definition.id, DescriptorMapOf(definition.inputDescriptors))
  }

  /**
   * `buildPresentationSubmission` up to the encoder call: the credentials are
   * passed through, with the fixed type list and the submission under its key.
   */
  function BuildPresentationRequest<C>(freshId: string, definition: PresentationDefinition, credentials: CredentialArgument<C>): (r: EncoderRequest<C>)
    ensures r.credentials == credentials
    ensures r.types == ["VerifiablePresentation", "PresentationSubmission"]
    ensures r.extension.Keys == {"presentation_submission"}
    ensures r.extension["presentation_submission"] == BuildSubmission(freshId, definition)
  {
    EncoderRequest(credentials, PresentationTypes, map[SubmissionKey := BuildSubmission(freshId, definition)])
  }

  /**
   * What a receiver relying on positional correspondence needs: the submission
   * names the definition, and entry i is for input descriptor i.
   */
  predicate CoversDefinition(s: PresentationSubmission, definition: PresentationDefinition)
  {
    s.definitionId == definition.id && MapIds(s.descriptorMap) == DescriptorIds(definition.inputDescriptors)
  }

  /** The descriptor map lists exactly the definition's descriptor ids, in order. */
  lemma {:induction false} DescriptorMapIds(ds: seq<InputDescriptor>)
    ensures MapIds(DescriptorMapOf(ds)) == DescriptorIds(ds)
  {
    if ds != [] {
      DescriptorMapIds(ds[1..]);
      assert DescriptorMapOf(ds) == [DescriptorEntry(ds[0])] + DescriptorMapOf(ds[1..]);
      assert MapIds(DescriptorMapOf(ds)) == [ds[0].id] + MapIds(DescriptorMapOf(ds[1..]));
    }
  }

  /** Every built submission covers its definition, one entry per descriptor in order. */
  lemma BuiltSubmissionCovers(freshId: string, definition: PresentationDefinition)
    ensures CoversDefinition(BuildSubmission(freshId, definition), definition)
  {
    DescriptorMapIds(definition.inputDescriptors);
  }

  /** Every entry's id names an input descriptor of the definition. */
  lemma EntriesReferenceDescriptors(freshId: string, definition: PresentationDefinition, e: DescriptorMap)
    requires e in BuildSubmission(freshId, definition).descriptorMap
    ensures exists d :: d in definition.inputDescriptors && d.id == e.id
  {
  }

  /** The descriptor map depends on the descriptors' ids only. */
  lemma DescriptorMapDependsOnIds(a: seq<InputDescriptor>, b: seq<InputDescriptor>)
    requires DescriptorIds(a) == DescriptorIds(b)
    ensures DescriptorMapOf(a) == DescriptorMapOf(b)
  {
  }

  /**
   * The submission is a function of the fresh id, the definition id and the
   * descriptor ids: the descriptors' constraints play no part in it.
   */
  lemma SubmissionDependsOnlyOnIds(freshId: string, d1: PresentationDefinition, d2: PresentationDefinition)
    requires d1.id == d2.id
    requires DescriptorIds(d1.inputDescriptors) == DescriptorIds(d2.inputDescriptors)
    ensures BuildSubmission(freshId, d1) == BuildSubmission(freshId, d2)
  {
  }

  /**
   * The submission handed to the encoder does not depend on the credentials:
   * one credential or an array gives the same metadata, every path pointing at
   * the first credential slot.
   */
  lemma SubmissionIgnoresCredentials<C>(freshId: string, definition: PresentationDefinition, c1: CredentialArgument<C>, c2: CredentialArgument<C>)
    ensures BuildPresentationRequest(freshId, definition, c1).extension == BuildPresentationRequest(freshId, definition, c2).extension
    ensures forall e :: e in BuildPresentationRequest(freshId, definition, c1).extension[SubmissionKey].descriptorMap ==>
      e.path == "$.verifiableCredential[0]" && e.format == "jwt_vc"
  {
  }

  /** The submission id is the supplied one whatever the definition: it is not derived from it. */
  lemma SubmissionIdIsFresh(freshId: string, d1: PresentationDefinition, d2: PresentationDefinition)
    ensures BuildSubmission(freshId, d1).id == BuildSubmission(freshId, d2).id == freshId
    ensures d1.id != d2.id ==> BuildSubmission(freshId, d1) != BuildSubmission(freshId, d2)
  {
  }
}
