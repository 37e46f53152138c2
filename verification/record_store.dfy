/** The record store: one in-memory map from CID to payload, shared by
    proposal records and property records. A CID is `"Qm"` followed by
    random base-36 digits, not a content hash; the random part is a
    parameter and must name a key not yet in use. */
module RecordStore {
  import opened Wrappers
  import opened Text
  import Js

  datatype ProposalData = ProposalData(
    title: Js.Value,
    description: Js.Value,
    proposer: Js.Value,
    timestamp: int)

  datatype PropertyRecord = PropertyRecord(
    propertyId: Js.Value,
    address: Js.Value,
    owner: Js.Value,
    value: Js.Value,
    timestamp: int)

  /** What the shared map holds under a CID. */
  datatype Payload = ProposalPayload(proposal: ProposalData) | PropertyPayload(property: PropertyRecord)

  type Store = map<string, Payload>

  const CidPrefix: string := "Qm"

  /** Two `Math.random().toString(36).substring(2, 15)` pieces: at most 26
      base-36 digits. */
  predicate IsCidEntropy(token: string) {
    IsBase36Token(token, 26)
  }

  function CidOf(token: string): string {
    CidPrefix + token
  }

  /** A CID as the store hands them out. */
  predicate IsCid(cid: string) {
    CidPrefix <= cid && IsCidEntropy(cid[|CidPrefix|..])
  }

  /** The store may use `token` for the next CID: well formed and unused. */
  predicate CanPut(s: Store, token: string) {
    IsCidEntropy(token) && CidOf(token) !in s
  }

  /** Every entry of `s` is still in `s'`, with the same payload. */
  ghost predicate Extends(s: Store, s': Store) {
    forall cid :: cid in s ==> cid in s' && s'[cid] == s[cid]
  }

  datatype Stored = Stored(cid: string, store: Store)

  /** `storage.set(cid, payload)` under a fresh CID built from `token`. */
  function Put(s: Store, token: string, p: Payload): (r: Stored)
    requires CanPut(s, token)
    ensures IsCid(r.cid) && r.cid !in s
    ensures r.store.Keys == s.Keys + {r.cid}
    ensures r.store[r.cid] == p
    ensures Extends(s, r.store)
  {
    var cid := CidOf(token);
    Stored(cid, s[cid := p])
  }

  /** `storeProposal(data)`. */
  function StoreProposal(s: Store, token: string, data: ProposalData): (r: Stored)
    requires CanPut(s, token)
    ensures IsCid(r.cid) && r.cid !in s
    ensures r.store.Keys == s.Keys + {r.cid}
    ensures r.store[r.cid] == ProposalPayload(data)
    ensures Extends(s, r.store)
  {
    Put(s, token, ProposalPayload(data))
  }

  /** `storePropertyRecord(data)`. */
  function StorePropertyRecord(s: Store, token: string, data: PropertyRecord): (r: Stored)
    requires CanPut(s, token)
    ensures IsCid(r.cid) && r.cid !in s
    ensures r.store.Keys == s.Keys + {r.cid}
    ensures r.store[r.cid] == PropertyPayload(data)
    ensures Extends(s, r.store)
  {
    Put(s, token, PropertyPayload(data))
  }

  /** `storage.get(cid)`, `null` when absent. The source's typed fetches
      cast without checking, so both return whatever payload is stored. */
  function Fetch(s: Store, cid: string): (r: Option<Payload>)
    ensures r == None <==> cid !in s
    ensures r.Some? ==> r.value == s[cid]
  {
    if cid in s then Some(s[cid]) else None
  }

  /** `fetchProposal(cid)`. */
  function FetchProposal(s: Store, cid: string): (r: Option<Payload>)
    ensures r == None <==> cid !in s
    ensures r.Some? ==> r.value == s[cid]
  {
    Fetch(s, cid)
  }

  /** `fetchPropertyRecord(cid)`. */
  function FetchPropertyRecord(s: Store, cid: string): (r: Option<Payload>)
    ensures r == None <==> cid !in s
    ensures r.Some? ==> r.value == s[cid]
  {
    Fetch(s, cid)
  }

  /** Storing a proposal and fetching it back by the returned CID gives the
      proposal. */
  lemma ProposalRoundTrip(s: Store, token: string, data: ProposalData)
    requires CanPut(s, token)
    ensures var r := StoreProposal(s, token, data);
      FetchProposal(r.store, r.cid) == Some(ProposalPayload(data))
  {
  }

  /** Storing a property record and fetching it back by the returned CID
      gives the record. */
  lemma PropertyRoundTrip(s: Store, token: string, data: PropertyRecord)
    requires CanPut(s, token)
    ensures var r := StorePropertyRecord(s, token, data);
      FetchPropertyRecord(r.store, r.cid) == Some(PropertyPayload(data))
  {
  }

  /** The two kinds share one map: a CID returned by either store call is
      found by either fetch call, which returns the same payload. */
  lemma SharedNamespace(s: Store, token: string, p: Payload)
    requires CanPut(s, token)
    ensures var r := Put(s, token, p);
      && FetchProposal(r.store, r.cid) == Some(p)
      && FetchPropertyRecord(r.store, r.cid) == Some(p)
  {
  }

  /** A store call leaves every other CID's lookup as it was, including
      CIDs that were absent. */
  lemma PutFrame(s: Store, token: string, p: Payload, cid: string)
    requires CanPut(s, token)
    requires cid != CidOf(token)
    ensures Fetch(Put(s, token, p).store, cid) == Fetch(s, cid)
  {
  }

  lemma ExtendsTransitive(s1: Store, s2: Store, s3: Store)
    requires Extends(s1, s2) && Extends(s2, s3)
    ensures Extends(s1, s3)
  {
  }

  /** One store operation, as issued by a caller: which kind of record and
      the random token the CID is built from. */
  datatype StoreOp = StoreProposalOp(token: string, proposal: ProposalData)
                   | StorePropertyOp(token: string, property: PropertyRecord)

  /** Applies the operations in order. There is no update or delete
      operation to apply. */
  function Run(s: Store, ops: seq<StoreOp>): (r: Option<Store>)
    decreases |ops|
  {
    if ops == [] then Some(s)
    else
      var op := ops[0];
      if !CanPut(s, op.token) then None
      else
        var stored := match op
          case StoreProposalOp(t, d) => StoreProposal(s, t, d)
          case StorePropertyOp(t, d) => StorePropertyRecord(s, t, d);
        Run(stored.store, ops[1..])
  }

  /** Records are immutable: after any run of store operations, every entry
      that was present before is still present with the same payload. */
  lemma {:induction false} RunExtends(s: Store, ops: seq<StoreOp>)
    requires Run(s, ops).Some?
    ensures Extends(s, Run(s, ops).value)
    decreases |ops|
  {
    if ops != [] {
      var op := ops[0];
      var stored := match op
        case StoreProposalOp(t, d) => StoreProposal(s, t, d)
        case StorePropertyOp(t, d) => StorePropertyRecord(s, t, d);
      RunExtends(stored.store, ops[1..]);
      ExtendsTransitive(s, stored.store, Run(s, ops).value);
    }
  }

  /** The worked scenario: property P1 stored and read back by its CID
      returns the identical record. */
  lemma Scenario(s: Store, token: string, now: int)
    requires CanPut(s, token)
    ensures var rec := PropertyRecord(Js.Str("P1"), Js.Str("X"), Js.Str("0xabc"), Js.Str("100"), now);
      var r := StorePropertyRecord(s, token, rec);
      FetchPropertyRecord(r.store, r.cid) == Some(PropertyPayload(rec))
  {
  }
}
