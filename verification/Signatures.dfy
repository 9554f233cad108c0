/** Signatures, checked by the service when an order is submitted (backend/pkg/eip712/verify.go) and by the
    contract when it is settled (contracts/src/OrderValidator.sol). The recovery of a signer on the curve
    is a parameter, the same on both sides; the digests and what is done around it are written out. */
module Signatures {
  import opened Domain
  import opened OrderEncoding
  import opened Settlement
  import Ex = Exchange

  // ---------------------------------------------------------------- digests

  /** The preimage of the domain separator. */
  datatype Separator = Separator(typeHash: Hash, name: Hash, version: Hash, chainId: seq<byte>, contract: seq<byte>)

  /** The preimage of the digest that is signed, after the prefix 0x1901. */
  datatype TypedData = TypedData(domain: Separator, structHash: Hash)

  const DOMAIN_TYPEHASH: Hash :=
    OfText("EIP712Domain(string name,string version,uint256 chainId,address verifyingContract)")

  /** Where orders are settled: the chain and the contract that both sides put into the domain. */
  datatype Place = Place(chainId: nat, contract: nat) {
    predicate InRange() {
      chainId < UINT256_LIMIT && contract < ADDRESS_LIMIT
    }
  }

  /** typehash.go, `Hash` and `HashTypedData` */
  function GoDigest(p: Place, o: OrderData): TypedData {
    TypedData(
      Separator(DOMAIN_TYPEHASH, OfText("NexusOrderBook"), OfText("1"),
                LeftPadBytes(MinimalBytes(p.chainId), 32), LeftPadBytes(BigEndian(p.contract, 20), 32)),
      GoOrderHash(o))
  }

  /** OrderValidator.sol, lines 10-23 */
  function ContractDigest(p: Place, o: OrderData): TypedData {
    TypedData(
      Separator(DOMAIN_TYPEHASH, OfText("NexusOrderBook"), OfText("1"), Word(p.chainId), Word(p.contract)),
      OrderHash(o))
  }

  /** Both sides sign and check the same digest. */
  lemma DigestsAgree(p: Place, o: OrderData)
    requires p.InRange() && InRange(o)
    ensures GoDigest(p, o) == ContractDigest(p, o)
  {
    HashesAgree(o);
    GoWordAgrees(p.chainId, p.chainId);
    AddressWordAgrees(p.contract);
  }

  // ---------------------------------------------------------------- checks

  /** The signer of a digest for the 64 bytes of `r` and `s` and a recovery id, if there is one. */
  type Recovery = (TypedData, seq<byte>, int) -> Option<nat>

  /** `VerifyOrderSignature` */
  predicate ServiceAccepts(recover: Recovery, p: Place, o: OrderData, sig: seq<byte>) {
    |sig| == 65 &&
    var v := if sig[64] >= 27 then sig[64] - 27 else sig[64];
    recover(GoDigest(p, o), sig[..64], v) == Some(o.maker)
  }

  /** `_validateSignature` and `_recover`; a signature they refuse reverts the settlement. */
  predicate ContractAccepts(recover: Recovery, p: Place, o: OrderData, sig: seq<byte>) {
    |sig| == 65 &&
    var v := if sig[64] < 27 then sig[64] + 27 else sig[64];
    (v == 27 || v == 28) &&
    match recover(ContractDigest(p, o), sig[..64], v - 27)
    case None => false
    case Some(signer) => signer != 0 && signer == o.maker
  }

  /** The last byte is one of those both sides read the same way, and the maker is not the zero address. */
  predicate Regular(o: OrderData, sig: seq<byte>) {
    |sig| == 65 && sig[64] in [0, 1, 27, 28] && o.maker != 0
  }

  /** A signature the service has accepted passes the contract's check if and only if it is regular. */
  lemma AcceptedIsAccepted(recover: Recovery, p: Place, o: OrderData, sig: seq<byte>)
    requires p.InRange() && InRange(o) && ServiceAccepts(recover, p, o, sig)
    ensures ContractAccepts(recover, p, o, sig) <==> Regular(o, sig)
  {
    DigestsAgree(p, o);
    hide GoDigest, ContractDigest, InRange;
  }

  // ---------------------------------------------------------------- settlement of accepted orders

  /** A queued job between two orders submitted once, both accepted by the service, settles if and only if
      both signatures are regular, the job is payable and it passes the price guard. */
  lemma AcceptedJobSettles(recover: Recovery, p: Place, k: Ex.Contract, w: World, i: nat, now: nat,
                           buySig: seq<byte>, sellSig: seq<byte>)
    requires p.InRange() && Sound(k, w) && i < |w.jobs| && w.jobs[i].fill >= 0 && w.jobs[i].quote >= 0
    requires Unique(w, w.jobs[i].buy.id) && Unique(w, w.jobs[i].sell.id)
    requires ServiceAccepts(recover, p, w.jobs[i].buy.data, buySig)
    requires ServiceAccepts(recover, p, w.jobs[i].sell.data, sellSig)
    ensures w.jobs[i].buy.Positive() && w.jobs[i].sell.Positive()
    ensures var j := w.jobs[i];
      var buySigned := ContractAccepts(recover, p, j.buy.data, buySig);
      var sellSigned := ContractAccepts(recover, p, j.sell.data, sellSig);
      Ex.Execute(k, w.chain, JobCall(k, j, buySigned, sellSigned, now)).Success? <==>
        Regular(j.buy.data, buySig) && Regular(j.sell.data, sellSig)
        && Payable(w.chain, j, now) && PassesGuard(j.buy.data, j.sell.data, j.fill)
  {
    hide Sound, Unique, ServiceAccepts, ContractAccepts, Regular, Payable, PassesGuard, InRange, Ex.Execute;
    var j := w.jobs[i];
    JobFacts(k, w, i);
    AcceptedIsAccepted(recover, p, j.buy.data, buySig);
    AcceptedIsAccepted(recover, p, j.sell.data, sellSig);
    JobSettlesIfDeliverable(k, w, i, ContractAccepts(recover, p, j.buy.data, buySig),
                            ContractAccepts(recover, p, j.sell.data, sellSig), now);
  }
}
