/** The proposal router as decision functions. It talks only to the
    record store: nothing it does reaches the pub/sub node, which is why
    its handlers take no node and return no published messages. */
module ProposalRoutes {
  import opened Wrappers
  import Js
  import opened RecordStore

  const MissingProposalFields: string := "Missing required fields: title, description, proposer"
  const ProposalNotFound: string := "Proposal not found"

  datatype ProposalRequest = ProposalRequest(title: Js.Value, description: Js.Value, proposer: Js.Value)

  datatype Body =
    | ProposalStored(cid: string, proposal: ProposalData)
    | ProposalFound(cid: string, payload: Payload)
    | ErrorBody(message: string)

  datatype Reply = Reply(status: int, body: Body)

  datatype Effect = Effect(reply: Reply, store: Store)

  predicate MissingProposalField(req: ProposalRequest) {
    Js.Falsy(req.title) || Js.Falsy(req.description) || Js.Falsy(req.proposer)
  }

  function ProposalOf(req: ProposalRequest, now: int): ProposalData {
    ProposalData(req.title, req.description, req.proposer, now)
  }

  /** POST `/`. The in-memory store cannot throw, so there is no 500. */
  function PostProposal(req: ProposalRequest, store: Store, now: int, token: string): (r: Effect)
    requires CanPut(store, token)
    ensures r.reply.status == 400 <==> MissingProposalField(req)
    ensures r.reply.status == 400 ==> r.store == store && r.reply.body == ErrorBody("Missing required fields: title, description, proposer")
    ensures r.reply.status != 400 ==>
      && r.reply == Reply(200, ProposalStored(CidOf(token), ProposalOf(req, now)))
      && r.store == store[CidOf(token) := ProposalPayload(ProposalOf(req, now))]
  {
    if MissingProposalField(req) then Effect(Reply(400, ErrorBody(MissingProposalFields)), store)
    else
      var data := ProposalOf(req, now);
      var stored := StoreProposal(store, token, data);
      Effect(Reply(200, ProposalStored(stored.cid, data)), stored.store)
  }

  /** GET `/:cid`. */
  function GetProposal(store: Store, cid: string): (r: Reply)
    ensures r.status == 404 <==> cid !in store
    ensures r.status == 404 ==> r.body == ErrorBody("Proposal not found")
    ensures r.status != 404 ==> r == Reply(200, ProposalFound(cid, store[cid]))
  {
    match FetchProposal(store, cid)
    case None => Reply(404, ErrorBody(ProposalNotFound))
    case Some(p) => Reply(200, ProposalFound(cid, p))
  }

  /** A proposal accepted by POST is served by GET under the returned CID,
      with the record the POST reply carried. */
  lemma PostThenGet(req: ProposalRequest, store: Store, now: int, token: string)
    requires CanPut(store, token)
    requires !MissingProposalField(req)
    ensures var r := PostProposal(req, store, now, token);
      && r.reply.body.ProposalStored?
      && GetProposal(r.store, r.reply.body.cid) == Reply(200, ProposalFound(r.reply.body.cid, ProposalPayload(r.reply.body.proposal)))
  {
  }
}
