/**
 The alert a sampler raises, as data: which metric, an optional mount point (only
 for disk alerts) and the observed value that was compared with
 the threshold. The log line and the console line built from it are not
 modelled; both carry exactly this information.
 */
module Alerts {

  datatype Option<+T> = None | Some(value: T)

  /** The four metric families, one per sampling loop. */
  datatype Kind = Cpu | Memory | Disk | Processes

  datatype Alert = Alert(kind: Kind, mount: Option<string>, value: real)

  /** The threshold rule every loop applies: strictly greater alerts, equality does not. */
  predicate Exceeds(observed: real, threshold: int) {
    observed > threshold as real
  }

  /** The usage figure `used / total * 100` of the memory and disk loops, as an exact real. */
  function Percent(used: nat, total: nat): (r: real)
    requires total > 0
    ensures r * total as real == (used * 100) as real
    ensures r >= 0.0
    ensures used <= total ==> r <= 100.0
  {
    (used as real / total as real) * 100.0
  }

  /**
   Over the integers, without any division: a usage of `used` out of `total`
   is above `threshold` percent exactly when `used * 100 > threshold * total`.
   */
  lemma PercentExceedsIff(used: nat, total: nat, threshold: int)
    requires total > 0
    ensures Exceeds(Percent(used, total), threshold) <==> used * 100 > threshold * total
  {
  }
}
