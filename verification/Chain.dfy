/** What the planner reads from the chain and from the request. */
module Chain {
  import opened Words
  import opened Wrappers

  type SectorNumber = uint64
  type Epoch = int
  type ClaimId = nat

  datatype Location = Location(deadline: nat, partition: nat)

  datatype SectorInfo = SectorInfo(
    number: SectorNumber, activation: Epoch, expiration: Epoch, pledge: nat, sealProof: nat)

  datatype Claim = Claim(termStart: Epoch, termMax: Epoch)

  /** The verified registry: which claims a sector carries, and what each claim says. */
  datatype Registry = Registry(idsBySector: map<SectorNumber, seq<ClaimId>>, claims: map<ClaimId, Claim>)

  /** Network values in force at the chain head; `maxLifetime` is by seal proof. */
  datatype Policy = Policy(currEpoch: Epoch, maxExtension: Epoch, maxLifetime: nat -> Epoch)

  /** The expiration a request asks for. */
  datatype Terms = Terms(extension: Option<Epoch>, newExpiration: Option<Epoch>, tolerance: Epoch)
}
