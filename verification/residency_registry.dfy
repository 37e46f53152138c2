/** The residency registry: proofs keyed by lower-cased address, written
    on verification and deleted on revocation. The random proof token and
    the clock are parameters. */
module ResidencyRegistry {
  import opened Wrappers
  import opened Text

  const DefaultLocality: string := "Lisbon"
  const ProofPrefix: string := "zk_proof_"

  datatype ResidencyProof = ResidencyProof(
    address: string,
    verified: bool,
    proof: string,
    timestamp: int,
    locality: string)

  type Registry = map<string, ResidencyProof>

  /** Every entry is filed under its own lower-cased address, is verified,
      and carries a `zk_proof_` token. */
  ghost predicate Valid(reg: Registry) {
    forall k :: k in reg ==>
      && IsLowerCase(k)
      && reg[k].address == k
      && reg[k].verified
      && ProofPrefix <= reg[k].proof
  }

  datatype Verification = Verification(proof: ResidencyProof, registry: Registry)

  /** `verifyResidency(address, locality)` at time `now`, with `token` the
      one `Math.random().toString(36).substring(2, 15)` piece. */
  function VerifyResidency(reg: Registry, address: string, locality: string, token: string, now: int): (r: Verification)
    requires IsBase36Token(token, 13)
    ensures r.proof.address == Lower(address) && r.proof.verified && r.proof.locality == locality
    ensures r.proof.timestamp == now
    ensures "zk_proof_" <= r.proof.proof
    ensures r.registry.Keys == reg.Keys + {Lower(address)}
    ensures r.registry[Lower(address)] == r.proof
    ensures forall k :: k in reg && k != Lower(address) ==> r.registry[k] == reg[k]
  {
    var key := Lower(address);
    var p := ResidencyProof(key, true, ProofPrefix + token, now, locality);
    Verification(p, reg[key := p])
  }

  /** `verifyResidency(address)`: the locality defaults to "Lisbon". */
  function VerifyResidencyDefault(reg: Registry, address: string, token: string, now: int): (r: Verification)
    requires IsBase36Token(token, 13)
    ensures r.proof.locality == "Lisbon"
    ensures Lower(address) in r.registry && r.registry[Lower(address)] == r.proof
    ensures r == VerifyResidency(reg, address, "Lisbon", token, now)
  {
    VerifyResidency(reg, address, DefaultLocality, token, now)
  }

  /** `getResidencyProof(address)`. */
  function GetResidencyProof(reg: Registry, address: string): (r: Option<ResidencyProof>)
    ensures r == None <==> Lower(address) !in reg
    ensures r.Some? ==> r.value == reg[Lower(address)]
  {
    var key := Lower(address);
    if key in reg then Some(reg[key]) else None
  }

  datatype Revocation = Revocation(ok: bool, registry: Registry)

  /** `revokeResidency(address)`: deletes the entry, if any, and reports
      `true` regardless. */
  function RevokeResidency(reg: Registry, address: string): (r: Revocation)
    ensures r.ok
    ensures r.registry.Keys == reg.Keys - {Lower(address)}
    ensures forall k :: k in r.registry ==> r.registry[k] == reg[k]
  {
    Revocation(true, reg - {Lower(address)})
  }

  /** After verifying `a`, looking up any `b` equal to `a` up to case
      returns the new proof. */
  lemma VerifyThenGet(reg: Registry, a: string, locality: string, token: string, now: int, b: string)
    requires IsBase36Token(token, 13)
    requires Lower(b) == Lower(a)
    ensures var r := VerifyResidency(reg, a, locality, token, now);
      GetResidencyProof(r.registry, b) == Some(r.proof)
  {
  }

  /** After revoking `a`, looking up any `b` equal to `a` up to case
      returns nothing. */
  lemma RevokeThenGet(reg: Registry, a: string, b: string)
    requires Lower(b) == Lower(a)
    ensures GetResidencyProof(RevokeResidency(reg, a).registry, b) == None
  {
  }

  /** Re-verifying the same address in another letter case replaces the
      earlier proof: one entry per address, holding the latest proof. */
  lemma ReverifyOverwrites(
    reg: Registry, a: string, loc1: string, t1: string, now1: int,
    b: string, loc2: string, t2: string, now2: int)
    requires IsBase36Token(t1, 13) && IsBase36Token(t2, 13)
    requires Lower(b) == Lower(a)
    ensures var r1 := VerifyResidency(reg, a, loc1, t1, now1);
      var r2 := VerifyResidency(r1.registry, b, loc2, t2, now2);
      && r2.registry.Keys == r1.registry.Keys
      && |r2.registry| == |r1.registry|
      && GetResidencyProof(r2.registry, a) == Some(r2.proof)
  {
  }

  /** Verification keeps the registry well formed. */
  lemma VerifyPreservesValid(reg: Registry, a: string, locality: string, token: string, now: int)
    requires Valid(reg)
    requires IsBase36Token(token, 13)
    ensures Valid(VerifyResidency(reg, a, locality, token, now).registry)
  {
    LowerIdempotent(a);
  }

  /** Revocation keeps the registry well formed. */
  lemma RevokePreservesValid(reg: Registry, a: string)
    requires Valid(reg)
    ensures Valid(RevokeResidency(reg, a).registry)
  {
  }

  /** Verify and revoke touch only the lower-cased key: lookups of every
      address that differs from `a` up to case are unchanged. */
  lemma OtherAddressesUntouched(reg: Registry, a: string, locality: string, token: string, now: int, b: string)
    requires IsBase36Token(token, 13)
    requires Lower(b) != Lower(a)
    ensures GetResidencyProof(VerifyResidency(reg, a, locality, token, now).registry, b) == GetResidencyProof(reg, b)
    ensures GetResidencyProof(RevokeResidency(reg, a).registry, b) == GetResidencyProof(reg, b)
  {
  }

  /** One registry call, with its clock reading and proof token. */
  datatype RegistryOp =
    | VerifyOp(address: string, locality: string, token: string, now: int)
    | RevokeOp(address: string)

  /** Applies the calls in order; undefined when a proof token is not one
      `Math.random` could produce. */
  function Run(reg: Registry, ops: seq<RegistryOp>): Option<Registry>
    decreases |ops|
  {
    if ops == [] then Some(reg)
    else
      match ops[0]
      case VerifyOp(a, loc, t, now) =>
        if IsBase36Token(t, 13) then Run(VerifyResidency(reg, a, loc, t, now).registry, ops[1..]) else None
      case RevokeOp(a) => Run(RevokeResidency(reg, a).registry, ops[1..])
  }

  /** Every registry reachable from the empty one holds at most one entry
      per address up to case, each filed under its lower-cased address. */
  lemma {:induction false} RunPreservesValid(reg: Registry, ops: seq<RegistryOp>)
    requires Valid(reg)
    requires Run(reg, ops).Some?
    ensures Valid(Run(reg, ops).value)
    decreases |ops|
  {
    if ops != [] {
      match ops[0] {
        case VerifyOp(a, loc, t, now) =>
          VerifyPreservesValid(reg, a, loc, t, now);
          RunPreservesValid(VerifyResidency(reg, a, loc, t, now).registry, ops[1..]);
        case RevokeOp(a) =>
          RevokePreservesValid(reg, a);
          RunPreservesValid(RevokeResidency(reg, a).registry, ops[1..]);
      }
    }
  }

  /** The call verifies an address equal to `a` up to case. */
  predicate VerifiesAddress(op: RegistryOp, a: string) {
    op.VerifyOp? && Lower(op.address) == Lower(a)
  }

  /** An address no call ever verified has no proof, after any sequence of
      verify and revoke calls on other addresses, starting from any
      registry that had none for it. */
  lemma {:induction false} NeverVerifiedHasNoProof(reg: Registry, ops: seq<RegistryOp>, a: string)
    requires GetResidencyProof(reg, a) == None
    requires forall i :: 0 <= i < |ops| ==> !VerifiesAddress(ops[i], a)
    requires Run(reg, ops).Some?
    ensures GetResidencyProof(Run(reg, ops).value, a) == None
    decreases |ops|
  {
    if ops != [] {
      assert !VerifiesAddress(ops[0], a);
      match ops[0] {
        case VerifyOp(b, loc, t, now) =>
          var reg' := VerifyResidency(reg, b, loc, t, now).registry;
          assert forall i :: 0 <= i < |ops[1..]| ==> !VerifiesAddress(ops[1..][i], a) by {
            forall i | 0 <= i < |ops[1..]| ensures !VerifiesAddress(ops[1..][i], a) {
              assert ops[1..][i] == ops[i + 1];
            }
          }
          NeverVerifiedHasNoProof(reg', ops[1..], a);
        case RevokeOp(b) =>
          var reg' := RevokeResidency(reg, b).registry;
          assert forall i :: 0 <= i < |ops[1..]| ==> !VerifiesAddress(ops[1..][i], a) by {
            forall i | 0 <= i < |ops[1..]| ensures !VerifiesAddress(ops[1..][i], a) {
              assert ops[1..][i] == ops[i + 1];
            }
          }
          NeverVerifiedHasNoProof(reg', ops[1..], a);
      }
    }
  }

  /** From the empty registry, an address never verified has no proof. */
  lemma UnknownAddress(ops: seq<RegistryOp>, a: string)
    requires forall i :: 0 <= i < |ops| ==> !VerifiesAddress(ops[i], a)
    requires Run(map[], ops).Some?
    ensures GetResidencyProof(Run(map[], ops).value, a) == None
  {
    NeverVerifiedHasNoProof(map[], ops, a);
  }
}
