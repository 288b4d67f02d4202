/** Policies and their validation (crates/core/src/config.rs). */
module Policies {

  datatype Criteria = Sub | Ip

  /** A policy as read from JSON; `resetIn` is in whole seconds. */
  datatype UncheckedPolicy = UncheckedPolicy(criteria: Criteria, quota: nat, leaseSize: nat, resetIn: nat)

  datatype Policy = Policy(criteria: Criteria, quota: nat, leaseSize: nat, resetIn: nat) {
    /** What every accepted policy satisfies, and all that the protocol needs from it. */
    predicate Valid() {
      1 <= leaseSize <= quota
    }

    function WindowMs(): nat {
      1000 * resetIn
    }
  }

  datatype Validation = Accepted(policy: Policy) | Rejected(reason: string)

  function TryFrom(p: UncheckedPolicy): (v: Validation)
    ensures v.Accepted? <==> 1 <= p.leaseSize <= p.quota
    ensures v.Accepted? ==> v.policy.Valid() && v.policy.criteria == p.criteria && v.policy.quota == p.quota
                            && v.policy.leaseSize == p.leaseSize && v.policy.WindowMs() == 1000 * p.resetIn
  {
    if p.leaseSize == 0 || p.leaseSize > p.quota then
      Rejected("lease_size must be in 1..=quota")
    else
      Accepted(Policy(p.criteria, p.quota, p.leaseSize, p.resetIn))
  }
}
