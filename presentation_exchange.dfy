/**
 * The Presentation Exchange data model shared by the submission builder and the
 * validators: what a verifier asks for (a presentation definition made of input
 * descriptors) and what a holder sends back (a presentation submission whose
 * descriptor map binds each input descriptor to a credential in the envelope).
 *
 * The JSON keys of the wire format are given beside each field.
 */
module PresentationExchange {
  import opened Wrappers

  /** One required field: candidate paths tried in order, and an optional purpose. */
  datatype InputDescriptorConstraintField = InputDescriptorConstraintField(
    path: seq<string>,        // "path"
    purpose: Option<string>   // "purpose"
  )

  /** One credential requirement of a definition. */
  datatype InputDescriptor = InputDescriptor(
    id: string,                                  // "id"
    fields: seq<InputDescriptorConstraintField>  // "constraints.fields"
  )

  /** A verifier's full requirement set. */
  datatype PresentationDefinition = PresentationDefinition(
    id: string,                              // "id"
    inputDescriptors: seq<InputDescriptor>   // "input_descriptors"
  )

  /** Binds an input descriptor id to the format and location of the credential meeting it. */
  datatype DescriptorMap = DescriptorMap(
    id: string,      // "id"
    format: string,  // "format"
    path: string     // "path"
  )

  /** The `presentation_submission` metadata carried by a verifiable presentation. */
  datatype PresentationSubmission = PresentationSubmission(
    id: string,                        // "id"
    definitionId: string,              // "definition_id"
    descriptorMap: seq<DescriptorMap>  // "descriptor_map"
  )

  /** The ids of a list of input descriptors, in order. */
  function DescriptorIds(ds: seq<InputDescriptor>): (ids: seq<string>)
    ensures |ids| == |ds|
    ensures forall i :: 0 <= i < |ds| ==> ids[i] == ds[i].id
  {
    if ds == [] then [] else [ds[0].id] + DescriptorIds(ds[1..])
  }

  /** The ids named by a descriptor map, in order. */
  function MapIds(m: seq<DescriptorMap>): seq<string>
  {
    if m == [] then [] else [m[0].id] + MapIds(m[1..])
  }
}
