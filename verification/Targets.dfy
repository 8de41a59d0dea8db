/** The expiration one sector is to be extended to (service.go, the middle of `extend`). */
module Targets {
  import opened Wrappers
  import opened Chain

  predicate WithinTolerance(t: Epoch, a: Epoch, b: Epoch) {
    var diff := a - b;
    (if diff < 0 then -diff else diff) <= t
  }

  lemma WithinToleranceMeans(t: Epoch, a: Epoch, b: Epoch)
    ensures WithinTolerance(t, a, b) <==> b - t <= a <= b + t
  {}

  /** The expiration asked for: an absolute one wins over a relative one. */
  function Asked(terms: Terms, si: SectorInfo): Epoch {
    var relative := if terms.extension.Some? then si.expiration + terms.extension.value else 0;
    if terms.newExpiration.Some? then terms.newExpiration.value else relative
  }

  function Clamp(e: Epoch, bound: Epoch): Epoch {
    if e > bound then bound else e
  }

  function Target(terms: Terms, policy: Policy, si: SectorInfo): Epoch {
    var newExp := Clamp(Asked(terms, si), policy.currEpoch + policy.maxExtension);
    Clamp(newExp, si.activation + policy.maxLifetime(si.sealProof))
  }

  /** The sector gets a real extension; otherwise it is skipped. */
  predicate Worthwhile(terms: Terms, policy: Policy, si: SectorInfo) {
    var newExp := Target(terms, policy, si);
    !(newExp <= si.expiration || WithinTolerance(terms.tolerance, newExp, si.expiration))
  }

  /** Every bound on the new expiration lies beyond the old one by more than the tolerance: what is asked for, an
      absolute expiration taking precedence over a relative one, the cap from now and the lifetime cap. */
  predicate Beyond(terms: Terms, policy: Policy, si: SectorInfo) {
    var gap := if terms.tolerance < 0 then 0 else terms.tolerance;
    && (terms.newExpiration.Some? ==> si.expiration + gap < terms.newExpiration.value)
    && (terms.newExpiration.None? && terms.extension.Some? ==> gap < terms.extension.value)
    && si.expiration + gap < policy.currEpoch + policy.maxExtension
    && si.expiration + gap < si.activation + policy.maxLifetime(si.sealProof)
  }

  /** The target is the latest expiration allowed by the request and by both caps, an absolute request
      taking precedence over a relative one; and a sector is extended exactly when all three lie beyond
      its expiration by more than the tolerance, or beyond it at all, should the tolerance be negative. */
  lemma TargetIsLatestAllowed(terms: Terms, policy: Policy, si: SectorInfo, e: Epoch)
    requires terms.extension.Some? || terms.newExpiration.Some?
    ensures e <= Target(terms, policy, si) <==>
      && (terms.newExpiration.Some? ==> e <= terms.newExpiration.value)
      && (terms.newExpiration.None? ==> e - si.expiration <= terms.extension.value)
      && e <= policy.currEpoch + policy.maxExtension
      && e <= si.activation + policy.maxLifetime(si.sealProof)
    ensures Worthwhile(terms, policy, si) <==> Beyond(terms, policy, si)
  {}

  const DEFAULT_TOLERANCE: Epoch := 20160

  /** The terms a new request is stored with, if its creation is accepted: some expiration must be asked
      for, a relative one must not be below the tolerance, and an absolute one clears the tolerance. */
  function Accept(extension: Option<Epoch>, newExpiration: Option<Epoch>, tolerance: Option<Epoch>): Option<Terms> {
    var tol := if tolerance.Some? then tolerance.value else DEFAULT_TOLERANCE;
    if extension.None? && newExpiration.None? then None
    else if extension.Some? && extension.value < tol then None
    else Some(Terms(extension, newExpiration, if newExpiration.Some? then 0 else tol))
  }

  /** Which requests creation admits, as far as expiration and tolerance go, and with which tolerance: seven days
      of 2880 epochs unless given, and none at all beside an absolute expiration. */
  lemma AdmittedTerms(extension: Option<Epoch>, newExpiration: Option<Epoch>, tolerance: Option<Epoch>)
    ensures var terms := Accept(extension, newExpiration, tolerance);
      var least := if tolerance.Some? then tolerance.value else 20160;
      && (terms.Some? <==> (extension.Some? && extension.value >= least) || (extension.None? && newExpiration.Some?))
      && (terms.Some? && newExpiration.Some? ==> terms.value == Terms(extension, newExpiration, 0))
      && (terms.Some? && newExpiration.None? ==> terms.value == Terms(extension, None, least))
  {}

  /** Some sector, under some network policy, would be extended. */
  ghost predicate CanExtend(terms: Terms) {
    exists policy: Policy, si: SectorInfo :: Worthwhile(terms, policy, si)
  }

  lemma Extensible(terms: Terms, si: SectorInfo, bound: Epoch)
    requires Asked(terms, si) <= bound && si.activation == 0
    requires Asked(terms, si) > si.expiration && Asked(terms, si) - si.expiration > terms.tolerance
    ensures CanExtend(terms)
  {
    var policy := Policy(0, bound, proof => bound);
    assert Worthwhile(terms, policy, si);
  }

  /** An accepted request can extend something exactly if it asks for an absolute expiration, or for a
      positive extension different from its tolerance.  In particular a request whose extension equals
      its tolerance is accepted although it extends nothing. */
  lemma AcceptedIsUsefulIff(extension: Option<Epoch>, newExpiration: Option<Epoch>, tolerance: Option<Epoch>)
    requires Accept(extension, newExpiration, tolerance).Some?
    ensures var terms := Accept(extension, newExpiration, tolerance).value;
      CanExtend(terms) <==> newExpiration.Some? || (extension.value > 0 && extension.value != terms.tolerance)
  {
    var terms := Accept(extension, newExpiration, tolerance).value;
    if newExpiration.Some? {
      Extensible(terms, SectorInfo(0, 0, newExpiration.value - 1, 0, 0), newExpiration.value);
    } else if extension.value > 0 && extension.value != terms.tolerance {
      Extensible(terms, SectorInfo(0, 0, 0, 0, 0), extension.value);
    }
  }
}
