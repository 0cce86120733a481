/**
 * src/classifier/ProbeDistance.java: a training-set key paired with the
 * distance of one of its probes to the probe being classified. Both fields are
 * final in the source; as a datatype value it cannot change at all, and its
 * getters `getClassName` and `getDistanceToTestProbe` are the destructors.
 */
module ProbeDistances {

  datatype ProbeDistance = ProbeDistance(className: string, distanceToTestProbe: real) {

    /** `compareTo`: `Double.compare` of this distance with the other's. */
    function CompareTo(other: ProbeDistance): (r: int)
      ensures -1 <= r <= 1
      ensures r < 0 <==> distanceToTestProbe < other.distanceToTestProbe
      ensures r == 0 <==> distanceToTestProbe == other.distanceToTestProbe
      ensures r > 0 <==> distanceToTestProbe > other.distanceToTestProbe
    {
      if distanceToTestProbe < other.distanceToTestProbe then -1
      else if distanceToTestProbe > other.distanceToTestProbe then 1
      else 0
    }
  }

  /** The key `Collections.sort` orders a list of probe distances by. */
  function Distance(pd: ProbeDistance): real {
    pd.distanceToTestProbe
  }

  /** `compareTo` is antisymmetric, as `Comparable` requires. */
  lemma CompareToAntisymmetric(a: ProbeDistance, b: ProbeDistance)
    ensures a.CompareTo(b) == -b.CompareTo(a)
  {
  }

  /** `compareTo` is transitive, as `Comparable` requires. */
  lemma CompareToTransitive(a: ProbeDistance, b: ProbeDistance, c: ProbeDistance)
    requires a.CompareTo(b) <= 0 && b.CompareTo(c) <= 0
    ensures a.CompareTo(c) <= 0
  {
  }

  /** Sorting by `Distance` is the order `compareTo` defines. */
  lemma CompareToAgreesWithDistance(a: ProbeDistance, b: ProbeDistance)
    ensures a.CompareTo(b) <= 0 <==> Distance(a) <= Distance(b)
  {
  }
}
