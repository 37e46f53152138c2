/** The JSON messages that travel on the pub/sub topic, after decoding.
    Each carries a `type` field that inbound dispatch inspects. */
module Messages {
  import Js
  import RecordStore

  const PropertyRecordType: string := "property_record"
  const PropertyAttestationType: string := "property_attestation"
  const CommunityMessageType: string := "community_message"

  /** The attestation the property router builds and announces. Its `type`
      field is always `"property_attestation"`. */
  datatype Attestation = Attestation(
    propertyId: string,
    attester: Js.Value,
    attestation: Js.Value,
    signature: Js.Value,
    timestamp: int)

  datatype Message =
    | PropertyRecordMsg(data: RecordStore.PropertyRecord, cid: string)
    | AttestationMsg(attestation: Attestation)
      /** Any other decodable message, community messages included; only
          its `type` field matters here. */
    | OtherMsg(typeField: Js.Value)

  /** The value of the message's `type` field. */
  function TypeField(m: Message): Js.Value {
    match m
    case PropertyRecordMsg(_, _) => Js.Str(PropertyRecordType)
    case AttestationMsg(_) => Js.Str(PropertyAttestationType)
    case OtherMsg(t) => t
  }
}
