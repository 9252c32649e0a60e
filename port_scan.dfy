/** The first-match search both the host and the locator run over a window of candidate ports. */
module PortScan {
  import opened Results

  /** The index of the first port in `ports` that `accepts` admits, or `None` when it admits none. */
  function FirstAccepted(ports: seq<int>, accepts: int -> bool): (r: Option<nat>)
    ensures r.Some? ==> r.value < |ports| && accepts(ports[r.value])
    ensures r.Some? ==> forall j :: 0 <= j < r.value ==> !accepts(ports[j])
    ensures r.None? <==> forall j :: 0 <= j < |ports| ==> !accepts(ports[j])
  {
    if ports == [] then None
    else if accepts(ports[0]) then Some(0)
    else match FirstAccepted(ports[1..], accepts)
      case None => None
      case Some(k) => Some(k + 1)
  }

  /** A port that is admitted bounds the first admitted one from above. */
  lemma FirstAcceptedAtMost(ports: seq<int>, accepts: int -> bool, k: nat)
    requires k < |ports| && accepts(ports[k])
    ensures FirstAccepted(ports, accepts).Some? && FirstAccepted(ports, accepts).value <= k
  {
  }

  /** An admitted port preceded only by rejected ones is the first admitted. */
  lemma FirstAcceptedIs(ports: seq<int>, accepts: int -> bool, k: nat)
    requires k < |ports| && accepts(ports[k])
    requires forall j :: 0 <= j < k ==> !accepts(ports[j])
    ensures FirstAccepted(ports, accepts) == Some(k)
  {
    FirstAcceptedAtMost(ports, accepts, k);
  }
}
