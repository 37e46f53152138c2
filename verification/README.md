# NataCoin backend services, modelled in Dafny

This project models the in-memory backend of NataCoin, a local financial
cooperative's record and governance service. It covers four services and the
two HTTP routers that sequence them:

- **Governance ledger** (`GovernanceLedger`). Proposals are keyed by id, and each
  proposal has a list of votes. `castVote` checks three things in order: the
  proposal exists, the voting window contains the current time, and the voter
  has not voted yet (compared case-insensitively).
- **Record store** (`RecordStore`). One map from CID to payload, shared by proposal
  records and property records. A CID is `"Qm"` followed by random base-36
  digits. There is no update and no delete.
- **Pub/sub node** (`PubSubNode`). The `libp2pNode` / `isRunning` state machine of
  start and stop, the publish guard, and the dispatch of inbound messages on
  their `type` field. Message shapes live in `Messages`.
- **Residency registry** (`ResidencyRegistry`). Proofs are keyed by the
  lower-cased address. Verification overwrites the entry and revocation
  deletes it.
- **Routers** (`PropertyRoutes`, `ProposalRoutes`). Each handler is a pure function.
  - The two POST handlers of the property router take the request fields, the store and the node state. They return a reply (status and body), the new store, and the messages they published.
  - The POST handler of the proposal router takes the request fields and the store, and returns a reply and the new store. It has no node and publishes nothing.
  - The GET handlers take the store and a CID, and return a reply only.

The supporting modules are:

- `Wrappers`: `Option`, `Result` and `Outcome`.
- `Text`: ASCII lower-casing and base-36 tokens.
- `Js`: JavaScript values as they arrive in a parsed request body, plus the truthiness that `!x` and `x || y` test.

Every operation is an atomic step on immutable state. The clock (`now`), the
random proposal ids, CID tokens and proof tokens, and the outcome of each
transport call are all parameters. Fresh ids and fresh CIDs are
preconditions; they stand in for the uniqueness the source expects from
`Math.random()`.

Behaviour of the code that the model keeps on purpose:

- `fetchProposal` and `fetchPropertyRecord` read the same map, and their `as`
  casts are unchecked. So each returns whatever payload is stored under the
  CID, whichever kind it is (`RecordStore.Fetch`).
- `startLibp2p` sets `isRunning` to true before it subscribes. If subscribing
  fails, the error is rethrown, but the node is left running without a topic
  handler (`PubSubNode.Start`, `SubscribeFailed`).
- In `stopLibp2p`, a failure of `node.stop()` after a successful unsubscribe is
  swallowed. `isRunning` then stays true but the handler is gone.
- POST `/api/properties` stores the record before it publishes. A failed
  publish therefore answers 500 while the record is already stored
  (`PropertyRoutes.PostThenGet`).
- The router's `isRunning()` guard only ever holds when a node exists. So in
  every reachable state, `publishMessage` can fail only through the transport
  (`PubSubNode.RunningGuardSufficient`).

`backend/src/routes/properties.ts` imports `../services/libp2p.js`, while
the node code is `backend/src/libp2p.ts`. Both names refer to the module
modelled by `PubSubNode`.

## Model

| member | source | states |
|---|---|---|
| Text.Lower | backend/src/services/davinciClient.ts:101 | lower-casing keeps the length, maps each character through ASCII lower-casing and leaves no upper-case letter |
| Text.LowerIdempotent | backend/src/selfClient.ts:45 | lower-casing an already lower-cased key changes nothing, so registry keys are stable under re-lookup |
| GovernanceLedger.CreateProposal | backend/src/services/davinciClient.ts:39-63 | a fresh id gets the proposal with startTime = now and endTime = now + duration (start <= end exactly when duration >= 0) and an empty vote list; exactly one key is added to each map and every other entry is unchanged |
| GovernanceLedger.CreateProposalDefault | backend/src/services/davinciClient.ts:43 | omitting the duration is the same call with 604800 seconds: the window is [now, now + 604800], and the stored fields and the frame are those of createProposal |
| GovernanceLedger.GetProposal | backend/src/services/davinciClient.ts:125-127 | None exactly for unknown ids, otherwise the stored proposal |
| GovernanceLedger.GetVotes | backend/src/services/davinciClient.ts:134-136 | [] for unknown ids, otherwise the stored list in arrival order |
| GovernanceLedger.AnyVoterIs | backend/src/services/davinciClient.ts:101 | the `some` scan is true exactly when some vote's lower-cased voter equals the key |
| GovernanceLedger.CastVote | backend/src/services/davinciClient.ts:77-118 | not-found exactly for an unknown id; voting-closed exactly when now < startTime or now > endTime; already-voted exactly when an earlier voter matches up to case; success exactly otherwise, appending Vote(id, voter, support, weight, now) at the end of that list with the proposals map and all other lists unchanged; every failure returns no new state |
| GovernanceLedger.CreateProposalPreservesValid | backend/src/services/davinciClient.ts:53-63 | creation keeps the ledger invariant: same key sets for proposals and votes, proposals filed under their id, votes inside their window and with voters distinct up to case |
| GovernanceLedger.CastVotePreservesValid | backend/src/services/davinciClient.ts:98-114 | a successful vote keeps the invariant, so no proposal ever holds two votes from the same voter up to case |
| GovernanceLedger.NoSecondVote | backend/src/services/davinciClient.ts:100-103 | after a successful vote, any further vote on that proposal by the same address in any case fails |
| GovernanceLedger.OtherVoterAccepted | backend/src/services/davinciClient.ts:100-117 | a voter who differs up to case from every earlier voter is accepted while the window is open |
| GovernanceLedger.GetAfterCreate | backend/src/services/davinciClient.ts:53-63 | right after creation getProposal returns the proposal with window [now, now + duration] and getVotes returns []; every other id reads as before |
| GovernanceLedger.CastVoteKeepsReads | backend/src/services/davinciClient.ts:105-114 | a successful vote leaves every getProposal result unchanged, extends getVotes of the voted proposal by the new vote and leaves other ids' vote lists unchanged |
| GovernanceLedger.CreateThenVote | backend/src/services/davinciClient.ts:53-117 | a vote inside the window of a freshly created proposal succeeds and becomes the only entry of its list, stamped with the vote time |
| GovernanceLedger.RunPreservesValid | backend/src/services/davinciClient.ts:39-118 | any sequence of create and vote calls (failed votes leaving the ledger as it was) keeps the ledger invariant |
| GovernanceLedger.ReachableIsValid | backend/src/services/davinciClient.ts:28-29 | every ledger reachable from the empty maps satisfies the invariant, so no vote list ever holds two votes from one voter up to case |
| GovernanceLedger.Scenario | backend/src/services/davinciClient.ts:39-117 | 100-second proposal at t = 0: vote at 50 succeeds, the same voter in other case at 60 gets already-voted, a vote at 150 gets voting-closed |
| RecordStore.Put | backend/src/services/filecoin.ts:40-41 | the CID starts with "Qm" followed by at most 26 base-36 digits, was not in use, is the only key added, maps to the payload, and every earlier entry is kept |
| RecordStore.StoreProposal | backend/src/services/filecoin.ts:33-45 | the proposal is stored under a new "Qm" CID and nothing else changes |
| RecordStore.StorePropertyRecord | backend/src/services/filecoin.ts:74-81 | the property record is stored under a new "Qm" CID and nothing else changes |
| RecordStore.Fetch | backend/src/services/filecoin.ts:59-63 | None exactly for CIDs not in the store, otherwise the stored payload |
| RecordStore.FetchProposal | backend/src/services/filecoin.ts:52-67 | null exactly for a CID never stored, otherwise the payload stored under it (of either kind, as the cast is unchecked) |
| RecordStore.FetchPropertyRecord | backend/src/services/filecoin.ts:88-97 | null exactly for a CID never stored, otherwise the payload stored under it (of either kind, as the cast is unchecked) |
| RecordStore.ProposalRoundTrip | backend/src/services/filecoin.ts:40-41 | fetching the returned CID after storeProposal gives the stored proposal |
| RecordStore.PropertyRoundTrip | backend/src/services/filecoin.ts:76-77 | fetching the returned CID after storePropertyRecord gives the stored record |
| RecordStore.SharedNamespace | backend/src/services/filecoin.ts:26-104 | a CID from either store call is found by both fetch calls, which return the same payload |
| RecordStore.PutFrame | backend/src/services/filecoin.ts:41 | a store call leaves the lookup of every other CID as it was |
| RecordStore.RunExtends | backend/src/services/filecoin.ts:99-104 | after any sequence of store calls every earlier entry is still present with the same payload (no update or delete) |
| RecordStore.Scenario | backend/src/services/filecoin.ts:76-96 | property P1 stored and fetched by its CID comes back identical |
| PubSubNode.ConfiguredTopic | backend/src/libp2p.ts:23 | the topic is the configured one when set and non-empty, otherwise "natacoin-property-attestations" |
| PubSubNode.Initial | backend/src/libp2p.ts:21-23 | the node starts absent, stopped and unsubscribed, on the configured topic |
| PubSubNode.Start | backend/src/libp2p.ts:28-88 | a no-op while running; a failed creation changes nothing and rethrows; a failed node start assigns the node, stays stopped and rethrows; a failed subscribe leaves it running without a handler and rethrows; success is running and subscribed |
| PubSubNode.Stop | backend/src/libp2p.ts:93-106 | a no-op when not running or without a node; success clears running and the subscription; a failed unsubscribe is swallowed and changes nothing; a failed node stop after a good unsubscribe is swallowed, leaves it running and removes the handler |
| PubSubNode.Publish | backend/src/libp2p.ts:111-124 | refused with "libp2p node is not running" unless running with a node; otherwise succeeds exactly when the transport delivers, sending the message on the node's topic, and a transport failure rethrows the transport's own error |
| PubSubNode.GetNodeInfo | backend/src/libp2p.ts:145-156 | null exactly when no node exists; otherwise the node's peer id, the addresses the library reports at the time of the call, the topic and the current running flag |
| PubSubNode.Dispatch | backend/src/libp2p.ts:57-71 | a decode failure is caught; type "property_attestation" goes to the attestation handler exactly, "community_message" to the community handler exactly, anything else to neither |
| PubSubNode.ReceiveAll | backend/src/libp2p.ts:57-71 | every inbound message in a stream is dispatched in order; a bad message does not stop the ones after it |
| PubSubNode.StartStopPreserveValid | backend/src/libp2p.ts:28-106 | start and stop keep the state invariant: running implies a node exists, subscribed implies running |
| PubSubNode.RunPreservesValid | backend/src/libp2p.ts:28-106 | any sequence of starts and stops, with any library failures, keeps the state invariant |
| PubSubNode.ReachableIsValid | backend/src/libp2p.ts:21-114 | every state reachable from load time is valid, so when isRunning() holds publish can fail only through the transport |
| PubSubNode.NodeInfoAfterStartStop | backend/src/libp2p.ts:98-155 | after a clean start getNodeInfo reports the new node running on the configured topic; after a clean stop it reports the same peer id (libp2pNode is never cleared) with isRunning false |
| PubSubNode.IsRunning | backend/src/libp2p.ts:163 | reports isRunning; in a reachable state, when it is true a node exists, so getNodeInfo is not null |
| PubSubNode.RunningGuardSufficient | backend/src/libp2p.ts:112-114 | in a valid running state publish can fail only by a transport failure |
| PubSubNode.StopTwice | backend/src/libp2p.ts:94-96 | after a clean stop a second stop changes nothing and a publish is refused as not running |
| PubSubNode.PropertyRecordIgnored | backend/src/libp2p.ts:63-67 | a "property_record" message reaches neither handler |
| PubSubNode.CommunityMessageRouted | backend/src/libp2p.ts:65-66 | a decoded message whose type is "community_message" reaches the community handler |
| PubSubNode.DispatchPartition | backend/src/libp2p.ts:63-67 | every decodable message goes to exactly one of attestation, community or ignored, and attestations go to the attestation handler |
| ResidencyRegistry.VerifyResidency | backend/src/selfClient.ts:27-48 | the proof has address = lower(a), verified, the given locality, the current time and a "zk_proof_" token; it is stored under lower(a) only and every other entry is unchanged |
| ResidencyRegistry.VerifyResidencyDefault | backend/src/selfClient.ts:29 | omitting the locality is the same call with "Lisbon": the proof's locality is "Lisbon", and everything else is as verifyResidency states |
| ResidencyRegistry.GetResidencyProof | backend/src/selfClient.ts:56-58 | None exactly when lower(address) has no entry, otherwise that entry |
| ResidencyRegistry.RevokeResidency | backend/src/selfClient.ts:65-69 | always returns true; removes only the key lower(address) and keeps every other entry |
| ResidencyRegistry.VerifyThenGet | backend/src/selfClient.ts:45-57 | after verify(a), get(b) returns the new proof for every b equal to a up to case |
| ResidencyRegistry.RevokeThenGet | backend/src/selfClient.ts:57-67 | after revoke(a), get(b) returns null for every b equal to a up to case |
| ResidencyRegistry.ReverifyOverwrites | backend/src/selfClient.ts:45 | re-verifying the same address in any case keeps one entry, holding the latest proof |
| ResidencyRegistry.UnknownAddress | backend/src/selfClient.ts:56-58 | after any sequence of verify and revoke calls from the empty registry, an address that no call verified (up to case) has no proof |
| ResidencyRegistry.NeverVerifiedHasNoProof | backend/src/selfClient.ts:45-67 | verify calls on other addresses and revoke calls never create a proof for an address that had none |
| ResidencyRegistry.VerifyPreservesValid | backend/src/selfClient.ts:37-45 | verification keeps every entry filed under its own lower-case address, verified and with a "zk_proof_" token |
| ResidencyRegistry.RevokePreservesValid | backend/src/selfClient.ts:65-69 | revocation keeps the registry well formed |
| ResidencyRegistry.RunPreservesValid | backend/src/selfClient.ts:27-69 | after any sequence of verify and revoke calls there is at most one entry per address up to case, filed under the lower-cased address |
| ResidencyRegistry.OtherAddressesUntouched | backend/src/selfClient.ts:45-67 | verify and revoke leave lookups of every address that differs up to case unchanged |
| Js.Falsy | backend/src/routes/properties.ts:15 | `!x` holds exactly for undefined, null, false, 0 and the empty string; arrays and objects are truthy |
| Js.Or | backend/src/routes/properties.ts:96 | JavaScript's or-operator on values gives a when a is truthy and b otherwise |
| Js.OrMessage | backend/src/routes/properties.ts:47 | an error message falls back to the route's default exactly when it is empty |
| PropertyRoutes.PostProperty | backend/src/routes/properties.ts:11-49 | 400 with 'Missing required fields: propertyId, address, owner, value' exactly when propertyId, address, owner or value is falsy, and then nothing is stored or published; otherwise exactly {propertyId, address, owner, value, timestamp: now} is stored under the new CID, it is published as a property_record exactly when the node is running and the transport delivers; when not running, or running and delivered, the reply is 200 with the CID and the record; a publish failure answers 500 with the error's message, or 'Failed to store property' when that is empty |
| PropertyRoutes.GetProperty | backend/src/routes/properties.ts:55-74 | 404 "Property record not found" exactly when the CID is not stored, otherwise 200 with the stored payload |
| PropertyRoutes.PostAttestation | backend/src/routes/properties.ts:80-115 | 400 with 'Missing required fields: attester, attestation' exactly when attester or attestation is falsy, with nothing published; the attestation (signature defaulting to null) is published only when running, never stored, returned with 200 when not running or delivered; a publish failure answers 500 with the error's message, or 'Failed to create attestation' when that is empty |
| PropertyRoutes.PostThenGet | backend/src/routes/properties.ts:21-69 | a valid POST, even one that ends in 500 after a failed publish, is then served by GET under the same CID |
| PropertyRoutes.RunningPostAnnounces | backend/src/routes/properties.ts:29-44 | with a valid running node a valid POST answers 200 and publishes exactly when the transport delivers |
| PropertyRoutes.AnnouncementsDispatch | backend/src/routes/properties.ts:31-102 | what POST / announces is ignored on receipt, and what the attestation route announces goes to the attestation handler |
| ProposalRoutes.PostProposal | backend/src/routes/proposals.ts:11-37 | 400 exactly when title, description or proposer is falsy, with nothing stored; otherwise exactly {title, description, proposer, timestamp: now} is stored under the new CID and returned with it; there is no node and nothing is published |
| ProposalRoutes.GetProposal | backend/src/routes/proposals.ts:43-62 | 404 "Proposal not found" exactly when the CID is not stored, otherwise 200 with the stored payload under the same CID |
| ProposalRoutes.PostThenGet | backend/src/routes/proposals.ts:19-57 | a proposal accepted by POST is served by GET under the returned CID with the same record |

## Left out

- Transport setup in `backend/src/libp2p.ts` is left out: `createLibp2p`, the websockets, mplex, noise, gossipsub and bootstrap configuration, and the peer connect/disconnect listeners. These calls belong to a foreign library. Each library call appears only as a success or failure outcome (`StartOutcome`, `StopOutcome`, `PublishOutcome`). The event-listener registrations (`backend/src/libp2p.ts:76-82`) are assumed never to fail. In the source, a failure there would come after a successful subscribe, so the node would be running and subscribed while the error is rethrown. No `StartOutcome` covers that case.
- JSON and TextEncoder encoding of messages is left out. Inbound messages are already decoded (`Inbound.Decoded`) or undecodable (`Inbound.Undecodable`).
- The handlers `handlePropertyAttestation` and `handleCommunityMessage` only log. The model records which handler a message reaches and nothing more.
- `Date.now()` and `Math.random()` are not modelled. The time, the proposal id, the CID entropy and the proof token are parameters. The `prop_<ms>_<random>` id format is not modelled; the id is any fresh string.
- `async`/`await` and concurrent request interleaving are not modelled. Each operation is one atomic step.
- Express request/response objects, CORS, the server bootstrap and signal handlers (`backend/src/index.ts`) are HTTP and process plumbing and are not modelled.
- The `success: true` field of the JSON replies is not modelled. Replies carry only the status and the body.
- `contracts/scripts/deploy.ts`, `app/src/app.tsx`, `app/src/components/Layout.tsx` and `app/src/config/contracts.ts` are not part of this model. They are a deployment script, the UI, and environment configuration.
- `console.log` and `console.error` output is not modelled.
- PropertyRoutes.GetProperty: has no 500 branch. The in-memory fetch it calls cannot throw, so the route's `catch` cannot be reached.
- ProposalRoutes.PostProposal: has no 500 branch. The in-memory store cannot throw, so the route's `catch` cannot be reached. ProposalRoutes.GetProposal has no 500 branch for the same reason.
- Text.Lower: folds only the ASCII letters A-Z. `toLowerCase` also folds other Unicode letters, and can change a string's length.
- Js.Falsy: does not model `NaN`, which JavaScript also treats as falsy.
- GovernanceLedger.CreateProposal: durations are whole seconds. A fractional `duration` would give a fractional `endTime` in JavaScript.
- GovernanceLedger.CastVote: the weight is an exact real. IEEE floating point is not modelled, and the weight is never validated (negative weights are accepted, as in the code).
- Object aliasing is not modelled. `getVotes` returns the live array (`backend/src/services/davinciClient.ts:135`), and later votes `push` onto that same array (:98, :113). So a list a caller obtained earlier grows afterwards. `getProposal` (:126), `fetchProposal` and `fetchPropertyRecord` (`backend/src/services/filecoin.ts:66`, :96) likewise return the stored mutable objects. The model returns value snapshots: a result reflects the state at the call, and nothing a caller does to a result can change the stored state.
- The text of the ledger's thrown errors (`Proposal <id> not found`, `Voting period has ended or not started`, `Already voted on this proposal`) is not modelled. The three errors are distinguished by the `LedgerError` constructors. No route shows these messages to a client.
- A proposal id or CID that collides with an existing key would overwrite the entry in the source. Freshness preconditions exclude this case, because the source relies on `Math.random()` to avoid it.
