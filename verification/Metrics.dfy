/** The route metric a router advertises for a tree, and its two orders. */
module Metrics {
  import opened Types

  datatype Metric = Metric(preference: nat, cost: nat) {

    predicate IsBetterThan(other: Metric) {
      if preference != other.preference then preference < other.preference
      else cost < other.cost
    }
  }

  /** A metric together with the address of the router that advertises it. */
  datatype AssertMetric = AssertMetric(metric: Metric, ip: Ip) {

    predicate IsBetterThan(other: AssertMetric) {
      metric.IsBetterThan(other.metric) || (metric == other.metric && ip > other.ip)
    }
  }

  /** Exactly one of two different claims is better, so an election between routers with
      different addresses never ties; and a lower preference decides whatever the costs are. */
  lemma AssertOrderIsTotal(a: AssertMetric, b: AssertMetric)
    ensures a.IsBetterThan(b) || b.IsBetterThan(a) || a == b
    ensures !(a.IsBetterThan(b) && b.IsBetterThan(a))
    ensures a.metric.preference < b.metric.preference ==> a.IsBetterThan(b)
  {
  }

  lemma AssertOrderIsTransitive(a: AssertMetric, b: AssertMetric, c: AssertMetric)
    requires a.IsBetterThan(b) && b.IsBetterThan(c)
    ensures a.IsBetterThan(c)
  {
  }
}
