/** The governance ledger: proposals keyed by id, and one vote list per
    proposal. The clock and the freshly generated proposal id are parameters. */
module GovernanceLedger {
  import opened Wrappers
  import opened Text

  /** Seven days, in seconds: the voting duration when none is given. */
  const DefaultDuration: int := 7 * 24 * 60 * 60

  datatype Proposal = Proposal(
    id: string,
    title: string,
    description: string,
    proposer: string,
    startTime: int,
    endTime: int)

  datatype Vote = Vote(
    proposalId: string,
    voter: string,
    support: bool,
    weight: real,
    timestamp: int)

  datatype Ledger = Ledger(proposals: map<string, Proposal>, votes: map<string, seq<Vote>>)

  /** The three errors `castVote` throws. */
  datatype LedgerError = ProposalNotFound(id: string) | VotingClosed | AlreadyVoted

  const Empty: Ledger := Ledger(map[], map[])

  /** An id the ledger has never handed out. */
  predicate Fresh(l: Ledger, id: string) {
    id !in l.proposals && id !in l.votes
  }

  /** The inclusive voting window of `p` contains `now`. */
  predicate InWindow(p: Proposal, now: int) {
    p.startTime <= now <= p.endTime
  }

  /** Reference meaning of "already voted": some vote in `vs` has a voter
      equal to `voter` once both are lower-cased. */
  ghost predicate HasVoted(vs: seq<Vote>, voter: string) {
    exists i :: 0 <= i < |vs| && Lower(vs[i].voter) == Lower(voter)
  }

  /** `vs.some(v => v.voter.toLowerCase() === key)`. */
  function AnyVoterIs(vs: seq<Vote>, key: string): (b: bool)
    ensures b <==> exists i :: 0 <= i < |vs| && Lower(vs[i].voter) == key
  {
    if vs == [] then false
    else Lower(vs[0].voter) == key || AnyVoterIs(vs[1..], key)
  }

  /** The well-formedness every reachable ledger keeps: every proposal has
      a vote list and vice versa, each proposal is filed under its own id,
      and each vote list holds votes for that proposal, cast inside its
      window, with no two voters equal up to case. */
  ghost predicate Valid(l: Ledger) {
    && l.proposals.Keys == l.votes.Keys
    && (forall id :: id in l.proposals ==> l.proposals[id].id == id)
    && (forall id :: id in l.votes ==> WellFormedVotes(l.proposals[id], l.votes[id]))
  }

  ghost predicate WellFormedVotes(p: Proposal, vs: seq<Vote>) {
    && (forall i :: 0 <= i < |vs| ==> vs[i].proposalId == p.id && InWindow(p, vs[i].timestamp))
    && (forall i, j :: 0 <= i < j < |vs| ==> Lower(vs[i].voter) != Lower(vs[j].voter))
  }

  /** `createProposal(title, description, proposer, duration)` at time `now`,
      with `id` the freshly generated proposal id it returns. */
  function CreateProposal(
    l: Ledger, id: string, title: string, description: string, proposer: string,
    duration: int, now: int): (r: Ledger)
    requires Fresh(l, id)
    ensures id in r.proposals && r.proposals[id] == Proposal(id, title, description, proposer, now, now + duration)
    ensures r.proposals[id].startTime <= r.proposals[id].endTime <==> duration >= 0
    ensures id in r.votes && r.votes[id] == []
    ensures r.proposals.Keys == l.proposals.Keys + {id}
    ensures r.votes.Keys == l.votes.Keys + {id}
    ensures forall other :: other in l.proposals ==> r.proposals[other] == l.proposals[other]
    ensures forall other :: other in l.votes ==> r.votes[other] == l.votes[other]
  {
    var p := Proposal(id, title, description, proposer, now, now + duration);
    Ledger(l.proposals[id := p], l.votes[id := []])
  }

  /** `createProposal` with the duration argument omitted. */
  function CreateProposalDefault(
    l: Ledger, id: string, title: string, description: string, proposer: string, now: int): (r: Ledger)
    requires Fresh(l, id)
    ensures id in r.proposals && r.proposals[id].startTime == now
    ensures r.proposals[id].endTime == now + 604800
    ensures id in r.votes && r.votes[id] == []
    ensures r == CreateProposal(l, id, title, description, proposer, 604800, now)
  {
    CreateProposal(l, id, title, description, proposer, DefaultDuration, now)
  }

  /** `getProposal(id)`: the stored proposal, or `null`. */
  function GetProposal(l: Ledger, id: string): (r: Option<Proposal>)
    ensures r == None <==> id !in l.proposals
    ensures r.Some? ==> r.value == l.proposals[id]
  {
    if id in l.proposals then Some(l.proposals[id]) else None
  }

  /** `getVotes(id)`: the vote list in arrival order, or `[]`. */
  function GetVotes(l: Ledger, id: string): (r: seq<Vote>)
    ensures id !in l.votes ==> r == []
    ensures id in l.votes ==> r == l.votes[id]
  {
    if id in l.votes then l.votes[id] else []
  }

  /** `castVote(id, voter, support, weight)` at time `now`. Success is the
      source's `true`, carrying the updated ledger. */
  function CastVote(
    l: Ledger, id: string, voter: string, support: bool, weight: real, now: int): (r: Result<Ledger, LedgerError>)
    ensures r == Failure(ProposalNotFound(id)) <==> id !in l.proposals
    ensures r == Failure(VotingClosed) <==>
      id in l.proposals && (now < l.proposals[id].startTime || now > l.proposals[id].endTime)
    ensures r == Failure(AlreadyVoted) <==>
      id in l.proposals && InWindow(l.proposals[id], now) && HasVoted(GetVotes(l, id), voter)
    ensures r.Success? <==>
      id in l.proposals && InWindow(l.proposals[id], now) && !HasVoted(GetVotes(l, id), voter)
    ensures r.Success? ==>
      && r.value.proposals == l.proposals
      && r.value.votes == l.votes[id := GetVotes(l, id) + [Vote(id, voter, support, weight, now)]]
  {
    if id !in l.proposals then Failure(ProposalNotFound(id))
    else
      var p := l.proposals[id];
      if now < p.startTime || now > p.endTime then Failure(VotingClosed)
      else
        var vs := GetVotes(l, id);
        if AnyVoterIs(vs, Lower(voter)) then Failure(AlreadyVoted)
        else Success(Ledger(l.proposals, l.votes[id := vs + [Vote(id, voter, support, weight, now)]]))
  }

  lemma EmptyIsValid()
    ensures Valid(Empty)
  {
  }

  /** Creating a proposal keeps the ledger well formed. */
  lemma CreateProposalPreservesValid(
    l: Ledger, id: string, title: string, description: string, proposer: string,
    duration: int, now: int)
    requires Valid(l) && Fresh(l, id)
    ensures Valid(CreateProposal(l, id, title, description, proposer, duration, now))
  {
  }

  /** A successful vote keeps the ledger well formed; in particular no
      proposal ever holds two votes from the same voter up to case. */
  lemma CastVotePreservesValid(
    l: Ledger, id: string, voter: string, support: bool, weight: real, now: int)
    requires Valid(l)
    ensures CastVote(l, id, voter, support, weight, now).Success? ==>
      Valid(CastVote(l, id, voter, support, weight, now).value)
  {
  }

  /** Once `voter` has voted on `id`, every later vote on `id` from the
      same address in any letter case fails, whatever the time. */
  lemma NoSecondVote(
    l: Ledger, id: string, voter: string, support: bool, weight: real, now: int,
    voter': string, support': bool, weight': real, now': int)
    requires CastVote(l, id, voter, support, weight, now).Success?
    requires Lower(voter') == Lower(voter)
    ensures CastVote(CastVote(l, id, voter, support, weight, now).value, id, voter', support', weight', now').Failure?
  {
    var l' := CastVote(l, id, voter, support, weight, now).value;
    var vs' := GetVotes(l', id);
    assert vs'[|vs'| - 1].voter == voter;
    assert HasVoted(vs', voter');
  }

  /** A vote from an address that differs, up to case, from every earlier
      voter is accepted whenever the window is open. */
  lemma OtherVoterAccepted(
    l: Ledger, id: string, voter: string, support: bool, weight: real, now: int)
    requires id in l.proposals && InWindow(l.proposals[id], now)
    requires forall v :: v in GetVotes(l, id) ==> Lower(v.voter) != Lower(voter)
    ensures CastVote(l, id, voter, support, weight, now).Success?
  {
  }

  /** Reading a proposal back right after creating it gives the window
      [now, now + duration]; every other id reads as before. */
  lemma GetAfterCreate(
    l: Ledger, id: string, title: string, description: string, proposer: string,
    duration: int, now: int, other: string)
    requires Fresh(l, id)
    ensures var l' := CreateProposal(l, id, title, description, proposer, duration, now);
      && GetProposal(l', id) == Some(Proposal(id, title, description, proposer, now, now + duration))
      && GetVotes(l', id) == []
      && (other != id ==> GetProposal(l', other) == GetProposal(l, other) && GetVotes(l', other) == GetVotes(l, other))
  {
  }

  /** Voting never changes what `getProposal` reports, and changes what
      `getVotes` reports only for the proposal voted on. */
  lemma CastVoteKeepsReads(
    l: Ledger, id: string, voter: string, support: bool, weight: real, now: int, other: string)
    requires CastVote(l, id, voter, support, weight, now).Success?
    ensures var l' := CastVote(l, id, voter, support, weight, now).value;
      && GetProposal(l', other) == GetProposal(l, other)
      && (other != id ==> GetVotes(l', other) == GetVotes(l, other))
      && GetVotes(l', id) == GetVotes(l, id) + [Vote(id, voter, support, weight, now)]
  {
  }

  /** Creating a proposal then voting inside its window: the vote is the
      only entry of the list, and reading it back gives it with timestamp
      `now'`. */
  lemma CreateThenVote(
    l: Ledger, id: string, title: string, description: string, proposer: string,
    duration: int, now: int, voter: string, support: bool, weight: real, now': int)
    requires Fresh(l, id)
    requires now <= now' <= now + duration
    ensures var l' := CreateProposal(l, id, title, description, proposer, duration, now);
      && CastVote(l', id, voter, support, weight, now').Success?
      && GetVotes(CastVote(l', id, voter, support, weight, now').value, id)
         == [Vote(id, voter, support, weight, now')]
  {
  }

  /** The worked scenario: a 100-second proposal created at t = 0 accepts a
      vote at t = 50, rejects the same voter (in other letter case) at t = 60
      and rejects any vote at t = 150. */
  lemma Scenario(id: string)
    ensures var l0 := CreateProposal(Empty, id, "t", "d", "0xabc", 100, 0);
      var r1 := CastVote(l0, id, "0xAbC", true, 1.0, 50);
      && r1.Success?
      && CastVote(r1.value, id, "0xABC", false, 1.0, 60) == Failure(AlreadyVoted)
      && CastVote(r1.value, id, "0xdef", true, 1.0, 150) == Failure(VotingClosed)
  {
  }

  /** One ledger call with its clock reading and, for creation, the fresh id. */
  datatype LedgerOp =
    | CreateOp(id: string, title: string, description: string, proposer: string, duration: int, now: int)
    | VoteOp(id: string, voter: string, support: bool, weight: real, now: int)

  /** Applies one call. A failed vote throws and leaves the ledger as it
      was; a creation is only defined for a fresh id. */
  function Step(l: Ledger, op: LedgerOp): Option<Ledger> {
    match op
    case CreateOp(id, t, d, p, dur, now) =>
      if Fresh(l, id) then Some(CreateProposal(l, id, t, d, p, dur, now)) else None
    case VoteOp(id, v, sup, w, now) =>
      match CastVote(l, id, v, sup, w, now)
      case Success(l') => Some(l')
      case Failure(_) => Some(l)
  }

  /** Applies the calls in order. */
  function Run(l: Ledger, ops: seq<LedgerOp>): Option<Ledger>
    decreases |ops|
  {
    if ops == [] then Some(l)
    else
      match Step(l, ops[0])
      case None => None
      case Some(l') => Run(l', ops[1..])
  }

  /** Every ledger reachable from the empty one by any sequence of calls is
      well formed: in particular no proposal's vote list ever holds two
      votes whose voters are equal up to case, and every vote lies in its
      proposal's window. */
  lemma {:induction false} RunPreservesValid(l: Ledger, ops: seq<LedgerOp>)
    requires Valid(l)
    requires Run(l, ops).Some?
    ensures Valid(Run(l, ops).value)
    decreases |ops|
  {
    if ops != [] {
      var l' := Step(l, ops[0]).value;
      match ops[0] {
        case CreateOp(id, t, d, p, dur, now) =>
          CreateProposalPreservesValid(l, id, t, d, p, dur, now);
        case VoteOp(id, v, sup, w, now) =>
          CastVotePreservesValid(l, id, v, sup, w, now);
      }
      RunPreservesValid(l', ops[1..]);
    }
  }

  lemma ReachableIsValid(ops: seq<LedgerOp>)
    requires Run(Empty, ops).Some?
    ensures Valid(Run(Empty, ops).value)
  {
    EmptyIsValid();
    RunPreservesValid(Empty, ops);
  }
}
