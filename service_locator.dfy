/**
 * The client side: scanning a service name's candidate window for a port
 * whose presence mutex exists and whose service answers a ping.
 */
module ServiceLocator {
  import opened Results
  import opened ServiceNames
  import opened PortAllocator
  import PortScan

  /** The XML-RPC client proxy; only the URL it is pointed at is modelled. */
  class ServiceProxy {
    var Url: string

    constructor ()
      ensures Url == ""
    {
      Url := "";
    }
  }

  /** The URL the locator points its proxy at for `port`. */
  function ServiceUrl(serviceName: string, port: int): string
  {
    GetUrlForService(FixupServiceName(serviceName), port)
  }

  /**
   * Whether `port` answers for `serviceName`: `mutexExists(name)` is true when
   * `Mutex.OpenExisting(name)` succeeds, `pingSucceeds(url)` when a ping of
   * the proxy pointed at `url` returns without throwing.
   */
  function Answers(serviceName: string, platform: Platform, mutexExists: string -> bool,
                   pingSucceeds: string -> bool): int -> bool
  {
    port => mutexExists(MutexName(port, serviceName, platform)) && pingSucceeds(ServiceUrl(serviceName, port))
  }

  /** The port the locator settles on: the first candidate that answers. */
  function LocatedPort(serviceName: string, platform: Platform, mutexExists: string -> bool,
                       pingSucceeds: string -> bool): Option<int>
  {
    var ports := CandidatePorts(serviceName);
    match PortScan.FirstAccepted(ports, Answers(serviceName, platform, mutexExists, pingSucceeds))
    case None => None
    case Some(k) => Some(ports[k])
  }

  /**
   * The located port is the lowest candidate whose presence mutex exists and
   * which answers the ping; there is none exactly when no candidate does.
   */
  lemma LocatedPortIsLowestLive(serviceName: string, platform: Platform, mutexExists: string -> bool,
                                pingSucceeds: string -> bool)
    ensures LocatedPort(serviceName, platform, mutexExists, pingSucceeds).Some? ==>
              var p := LocatedPort(serviceName, platform, mutexExists, pingSucceeds).value;
              && GetStartingPort(serviceName) <= p < GetStartingPort(serviceName) + NumberOfPortsToTry
              && mutexExists(MutexName(p, serviceName, platform))
              && pingSucceeds(ServiceUrl(serviceName, p))
              && forall q :: GetStartingPort(serviceName) <= q < p ==>
                   !(mutexExists(MutexName(q, serviceName, platform)) && pingSucceeds(ServiceUrl(serviceName, q)))
    ensures LocatedPort(serviceName, platform, mutexExists, pingSucceeds).None? <==>
              forall q :: GetStartingPort(serviceName) <= q < GetStartingPort(serviceName) + NumberOfPortsToTry ==>
                !(mutexExists(MutexName(q, serviceName, platform)) && pingSucceeds(ServiceUrl(serviceName, q)))
  {
    var ports, start := CandidatePorts(serviceName), GetStartingPort(serviceName);
    var accepts := Answers(serviceName, platform, mutexExists, pingSucceeds);
    var r := PortScan.FirstAccepted(ports, accepts);
    if r.Some? {
      forall q | start <= q < ports[r.value]
        ensures !(mutexExists(MutexName(q, serviceName, platform)) && pingSucceeds(ServiceUrl(serviceName, q)))
      {
        assert ports[q - start] == q && !accepts(ports[q - start]);
      }
    } else {
      forall q | start <= q < start + NumberOfPortsToTry
        ensures !(mutexExists(MutexName(q, serviceName, platform)) && pingSucceeds(ServiceUrl(serviceName, q)))
      {
        assert ports[q - start] == q && !accepts(ports[q - start]);
      }
    }
  }

  /** A candidate that answers after every lower one did not is the located port. */
  lemma LocatedPortIsFirstAnswering(serviceName: string, platform: Platform, mutexExists: string -> bool,
                                    pingSucceeds: string -> bool, port: int)
    requires GetStartingPort(serviceName) <= port < GetStartingPort(serviceName) + NumberOfPortsToTry
    requires Answers(serviceName, platform, mutexExists, pingSucceeds)(port)
    requires forall q :: GetStartingPort(serviceName) <= q < port ==>
               !Answers(serviceName, platform, mutexExists, pingSucceeds)(q)
    ensures LocatedPort(serviceName, platform, mutexExists, pingSucceeds) == Some(port)
  {
    var ports, start := CandidatePorts(serviceName), GetStartingPort(serviceName);
    var accepts := Answers(serviceName, platform, mutexExists, pingSucceeds);
    var k := port - start;
    forall j | 0 <= j < k ensures !accepts(ports[j]) {
      assert start <= ports[j] < port;
    }
    PortScan.FirstAcceptedIs(ports, accepts, k);
  }

  /** When no candidate answers, nothing is located. */
  lemma NoPortLocated(serviceName: string, platform: Platform, mutexExists: string -> bool,
                      pingSucceeds: string -> bool)
    requires forall q :: GetStartingPort(serviceName) <= q < GetStartingPort(serviceName) + NumberOfPortsToTry ==>
               !Answers(serviceName, platform, mutexExists, pingSucceeds)(q)
    ensures LocatedPort(serviceName, platform, mutexExists, pingSucceeds) == None
  {
    var ports := CandidatePorts(serviceName);
    assert forall j :: 0 <= j < |ports| ==> !Answers(serviceName, platform, mutexExists, pingSucceeds)(ports[j]);
  }

  /**
   * `GetExistingService`: scans the candidate window in ascending order; a
   * port without a presence mutex is skipped without a ping, a failed ping
   * moves on, the first successful ping returns the proxy, and an exhausted
   * window returns null. `visited` lists the ports examined and `pinged` the
   * ones pinged, in order.
   */
  method GetExistingService(unescapedServiceName: string, platform: Platform,
                            mutexExists: string -> bool, pingSucceeds: string -> bool)
    returns (proxy: ServiceProxy?, ghost visited: seq<int>, ghost pinged: seq<int>)
    requires '%' !in unescapedServiceName
    ensures proxy != null ==> fresh(proxy)
    ensures proxy == null <==> LocatedPort(unescapedServiceName, platform, mutexExists, pingSucceeds) == None
    ensures proxy != null ==>
              && |visited| > 0
              && LocatedPort(unescapedServiceName, platform, mutexExists, pingSucceeds) == Some(visited[|visited| - 1])
              && proxy.Url == ServiceUrl(unescapedServiceName, visited[|visited| - 1])
    ensures |visited| <= NumberOfPortsToTry
    ensures forall i :: 0 <= i < |visited| ==> visited[i] == GetStartingPort(unescapedServiceName) + i
    ensures proxy == null ==> |visited| == NumberOfPortsToTry
    ensures forall p :: p in pinged <==> p in visited && mutexExists(MutexName(p, unescapedServiceName, platform))
  {
    var serviceProxy := new ServiceProxy();
    var startingPort := GetStartingPort(unescapedServiceName);
    ghost var answers := Answers(unescapedServiceName, platform, mutexExists, pingSucceeds);
    visited, pinged := [], [];
    for port := startingPort to startingPort + NumberOfPortsToTry
      invariant |visited| == port - startingPort
      invariant forall i :: 0 <= i < |visited| ==> visited[i] == startingPort + i
      invariant forall q :: startingPort <= q < port ==> !answers(q)
      invariant forall p :: p in pinged <==> p in visited && mutexExists(MutexName(p, unescapedServiceName, platform))
    {
      serviceProxy.Url := GetUrlForService(FixupServiceName(unescapedServiceName), port);
      visited := visited + [port];
      var mutexName := GetNameOfMutexForPortAndService(port, unescapedServiceName, platform);
      if !mutexExists(mutexName) {
        continue;
      }
      pinged := pinged + [port];
      if pingSucceeds(serviceProxy.Url) {
        LocatedPortIsFirstAnswering(unescapedServiceName, platform, mutexExists, pingSucceeds, port);
        return serviceProxy, visited, pinged;
      }
    }
    NoPortLocated(unescapedServiceName, platform, mutexExists, pingSucceeds);
    return null, visited, pinged;
  }
}
