/** The property router as decision functions: each handler maps the
    request, the record store and the pub/sub node to a reply, the new
    store and the messages it published. */
module PropertyRoutes {
  import opened Wrappers
  import Js
  import opened RecordStore
  import opened Messages
  import opened PubSubNode

  const MissingPropertyFields: string := "Missing required fields: propertyId, address, owner, value"
  const MissingAttestationFields: string := "Missing required fields: attester, attestation"
  const PropertyNotFound: string := "Property record not found"
  const StoreFallback: string := "Failed to store property"
  const AttestationFallback: string := "Failed to create attestation"

  /** The fields of the POST body. */
  datatype PropertyRequest = PropertyRequest(propertyId: Js.Value, address: Js.Value, owner: Js.Value, value: Js.Value)
  datatype AttestationRequest = AttestationRequest(attester: Js.Value, attestation: Js.Value, signature: Js.Value)

  datatype Body =
    | PropertyStored(cid: string, property: PropertyRecord)
    | PropertyFound(cid: string, payload: Payload)
    | AttestationCreated(attestation: Attestation)
    | ErrorBody(message: string)

  datatype Reply = Reply(status: int, body: Body)

  /** A handler's whole effect. */
  datatype Effect = Effect(reply: Reply, store: Store, published: seq<Envelope>)

  predicate MissingPropertyField(req: PropertyRequest) {
    Js.Falsy(req.propertyId) || Js.Falsy(req.address) || Js.Falsy(req.owner) || Js.Falsy(req.value)
  }

  /** The record the handler stores for a valid request at time `now`. */
  function RecordOf(req: PropertyRequest, now: int): PropertyRecord {
    PropertyRecord(req.propertyId, req.address, req.owner, req.value, now)
  }

  /** POST `/`: store the record, then announce it if the node runs. The
      record is stored before publishing, so a failed publish answers 500
      with the record already in the store. */
  function PostProperty(
    req: PropertyRequest, store: Store, node: NodeState, now: int, token: string, o: PublishOutcome): (r: Effect)
    requires CanPut(store, token)
    ensures r.reply.status == 400 <==> MissingPropertyField(req)
    ensures r.reply.status == 400 ==> r.store == store && r.published == []
    ensures r.reply.status == 400 ==> r.reply.body == ErrorBody("Missing required fields: propertyId, address, owner, value")
    ensures !MissingPropertyField(req) ==> r.store == store[CidOf(token) := PropertyPayload(RecordOf(req, now))]
    ensures r.published != [] <==> !MissingPropertyField(req) && IsRunning(node) && Publish(node, PropertyRecordMsg(RecordOf(req, now), CidOf(token)), o).Success?
    ensures r.published != [] ==> r.published == [Envelope(node.topic, PropertyRecordMsg(RecordOf(req, now), CidOf(token)))]
    ensures r.reply.status == 200 ==> r.reply.body == PropertyStored(CidOf(token), RecordOf(req, now))
    ensures !MissingPropertyField(req) && !IsRunning(node) ==> r.reply.status == 200 && r.published == []
    ensures !MissingPropertyField(req) && IsRunning(node) ==>
      var p := Publish(node, PropertyRecordMsg(RecordOf(req, now), CidOf(token)), o);
      && (p.Success? ==> r.reply.status == 200)
      && (p.Failure? ==> r.reply == Reply(500, ErrorBody(Js.OrMessage(p.error, "Failed to store property"))))
    ensures r.reply.status in {200, 400, 500}
  {
    if MissingPropertyField(req) then Effect(Reply(400, ErrorBody(MissingPropertyFields)), store, [])
    else
      var rec := RecordOf(req, now);
      var stored := StorePropertyRecord(store, token, rec);
      var ok := Reply(200, PropertyStored(stored.cid, rec));
      if IsRunning(node) then
        match Publish(node, PropertyRecordMsg(rec, stored.cid), o)
        case Success(env) => Effect(ok, stored.store, [env])
        case Failure(e) => Effect(Reply(500, ErrorBody(Js.OrMessage(e, StoreFallback))), stored.store, [])
      else Effect(ok, stored.store, [])
  }

  /** GET `/:cid`. The in-memory fetch cannot throw, so there is no 500. */
  function GetProperty(store: Store, cid: string): (r: Reply)
    ensures r.status == 404 <==> cid !in store
    ensures r.status == 404 ==> r.body == ErrorBody("Property record not found")
    ensures r.status != 404 ==> r == Reply(200, PropertyFound(cid, store[cid]))
  {
    match FetchPropertyRecord(store, cid)
    case None => Reply(404, ErrorBody(PropertyNotFound))
    case Some(p) => Reply(200, PropertyFound(cid, p))
  }

  /** The attestation the handler builds: `signature || null`. */
  function AttestationOf(propertyId: string, req: AttestationRequest, now: int): Attestation {
    Attestation(propertyId, req.attester, req.attestation, Js.Or(req.signature, Js.Null), now)
  }

  /** POST `/:propertyId/attestations`: build the attestation and announce
      it if the node runs. It is never written to the store. */
  function PostAttestation(
    propertyId: string, req: AttestationRequest, store: Store, node: NodeState, now: int, o: PublishOutcome): (r: Effect)
    ensures r.store == store
    ensures r.reply.status == 400 <==> Js.Falsy(req.attester) || Js.Falsy(req.attestation)
    ensures r.reply.status == 400 ==> r.published == []
    ensures r.reply.status == 400 ==> r.reply.body == ErrorBody("Missing required fields: attester, attestation")
    ensures r.published != [] <==>
      && !Js.Falsy(req.attester) && !Js.Falsy(req.attestation)
      && IsRunning(node) && Publish(node, AttestationMsg(AttestationOf(propertyId, req, now)), o).Success?
    ensures r.published != [] ==>
      r.published == [Envelope(node.topic, AttestationMsg(AttestationOf(propertyId, req, now)))]
    ensures r.reply.status == 200 ==> r.reply.body == AttestationCreated(AttestationOf(propertyId, req, now))
    ensures !Js.Falsy(req.attester) && !Js.Falsy(req.attestation) && !IsRunning(node) ==> r.reply.status == 200
    ensures !Js.Falsy(req.attester) && !Js.Falsy(req.attestation) && IsRunning(node) ==>
      var p := Publish(node, AttestationMsg(AttestationOf(propertyId, req, now)), o);
      && (p.Success? ==> r.reply.status == 200)
      && (p.Failure? ==> r.reply == Reply(500, ErrorBody(Js.OrMessage(p.error, "Failed to create attestation"))))
    ensures r.reply.status in {200, 400, 500}
  {
    if Js.Falsy(req.attester) || Js.Falsy(req.attestation) then
      Effect(Reply(400, ErrorBody(MissingAttestationFields)), store, [])
    else
      var att := AttestationOf(propertyId, req, now);
      var ok := Reply(200, AttestationCreated(att));
      if IsRunning(node) then
        match Publish(node, AttestationMsg(att), o)
        case Success(env) => Effect(ok, store, [env])
        case Failure(e) => Effect(Reply(500, ErrorBody(Js.OrMessage(e, AttestationFallback))), store, [])
      else Effect(ok, store, [])
  }

  /** A property accepted by POST, even one answered 500 because the
      announcement failed, is then served by GET under the same CID. */
  lemma PostThenGet(req: PropertyRequest, store: Store, node: NodeState, now: int, token: string, o: PublishOutcome)
    requires CanPut(store, token)
    requires !MissingPropertyField(req)
    ensures var r := PostProperty(req, store, node, now, token, o);
      GetProperty(r.store, CidOf(token)) == Reply(200, PropertyFound(CidOf(token), PropertyPayload(RecordOf(req, now))))
  {
  }

  /** On a valid node that is running, a valid request is stored and
      announced exactly when the transport delivers. */
  lemma RunningPostAnnounces(req: PropertyRequest, store: Store, node: NodeState, now: int, token: string, o: PublishOutcome)
    requires CanPut(store, token)
    requires !MissingPropertyField(req)
    requires PubSubNode.Valid(node) && IsRunning(node)
    ensures var r := PostProperty(req, store, node, now, token, o);
      (r.reply.status == 200 <==> o == Delivered) && (r.published != [] <==> o == Delivered)
  {
  }

  /** The inbound side ignores what POST `/` announces and hands what the
      attestation route announces to the attestation handler. */
  lemma AnnouncementsDispatch(
    req: PropertyRequest, store: Store, node: NodeState, now: int, token: string, o: PublishOutcome,
    propertyId: string, areq: AttestationRequest, o': PublishOutcome)
    requires CanPut(store, token)
    ensures var r := PostProperty(req, store, node, now, token, o);
      forall env :: env in r.published ==> Dispatch(Decoded(env.message)) == Ignored
    ensures var r := PostAttestation(propertyId, areq, store, node, now, o');
      forall env :: env in r.published ==> Dispatch(Decoded(env.message)) == AttestationHandler
  {
  }
}
