/**
 * The candidate window a service name maps to, and the host's search for a
 * port in it on which an HTTP channel can be registered.
 */
module PortAllocator {
  import opened Results
  import NameHasher
  import ServiceNames
  import PortScan

  /** First port of the whole range (`StartingPortBase`, default 5678). */
  const StartingPortBase: int := 5678

  /** Width of each name's candidate window (`NumberOfPortsToTry`). */
  const NumberOfPortsToTry: nat := 4

  /** `GetStartingPort`: the first port of the window for `serviceName`. */
  function GetStartingPort(serviceName: string): (port: int)
    ensures StartingPortBase <= port <= StartingPortBase + 255 * NumberOfPortsToTry
  {
    StartingPortBase + NameHasher.StringHash(serviceName) * NumberOfPortsToTry
  }

  /** The starting port is a multiple of the window width above the base, and that multiple is the hash. */
  lemma StartingPortEncodesHash(serviceName: string)
    ensures (GetStartingPort(serviceName) - StartingPortBase) % NumberOfPortsToTry == 0
    ensures (GetStartingPort(serviceName) - StartingPortBase) / NumberOfPortsToTry == NameHasher.StringHash(serviceName)
  {
  }

  /** The ports tried for `serviceName`, in the order both host and locator try them. */
  function CandidatePorts(serviceName: string): (ports: seq<int>)
    ensures |ports| == NumberOfPortsToTry
    ensures forall i :: 0 <= i < |ports| ==> ports[i] == GetStartingPort(serviceName) + i
  {
    seq(NumberOfPortsToTry, i => GetStartingPort(serviceName) + i)
  }

  /** The window is ascending and lies inside `[StartingPortBase, StartingPortBase + 1024)`. */
  lemma CandidateWindow(serviceName: string)
    ensures forall i, j :: 0 <= i < j < |CandidatePorts(serviceName)| ==>
              CandidatePorts(serviceName)[i] < CandidatePorts(serviceName)[j]
    ensures forall p :: p in CandidatePorts(serviceName) ==>
              StartingPortBase <= p < StartingPortBase + 256 * NumberOfPortsToTry
    ensures forall p :: p in CandidatePorts(serviceName) <==>
              GetStartingPort(serviceName) <= p < GetStartingPort(serviceName) + NumberOfPortsToTry
  {
    var ports := CandidatePorts(serviceName);
    forall p | GetStartingPort(serviceName) <= p < GetStartingPort(serviceName) + NumberOfPortsToTry
      ensures p in ports
    {
      assert ports[p - GetStartingPort(serviceName)] == p;
    }
  }

  /** Names with equal hashes share a window; names with different hashes have disjoint windows. */
  lemma WindowsCoincideOrAreDisjoint(a: string, b: string)
    ensures NameHasher.StringHash(a) == NameHasher.StringHash(b) ==> CandidatePorts(a) == CandidatePorts(b)
    ensures NameHasher.StringHash(a) != NameHasher.StringHash(b) ==>
              forall p :: !(p in CandidatePorts(a) && p in CandidatePorts(b))
  {
    CandidateWindow(a);
    CandidateWindow(b);
  }

  /** The settings of the HTTP channel: the address it binds to, its name, its port. */
  datatype ChannelProps = ChannelProps(bindTo: string, name: string, port: int)

  /** Channels bind to the loopback address only. */
  const LoopbackAddress: string := "127.0.0.1"

  /** The settings the host tries for `port`. */
  function PropsForPort(port: int): ChannelProps
  {
    ChannelProps(LoopbackAddress, ServiceNames.GetChannelName(port), port)
  }

  /** Whether the transport accepts a channel on `port`, given which settings it accepts. */
  function Registers(register: ChannelProps -> bool): int -> bool
  {
    port => register(PropsForPort(port))
  }

  /**
   * The port the host ends up with when `register` says which channel
   * settings the transport accepts: the first candidate it accepts.
   */
  function ChosenPort(serviceName: string, register: ChannelProps -> bool): Option<int>
  {
    match PortScan.FirstAccepted(CandidatePorts(serviceName), Registers(register))
    case None => None
    case Some(k) => Some(CandidatePorts(serviceName)[k])
  }

  /** A candidate that registers after every lower one failed is the chosen port. */
  lemma ChosenPortIsFirstRegistered(serviceName: string, register: ChannelProps -> bool, port: int)
    requires GetStartingPort(serviceName) <= port < GetStartingPort(serviceName) + NumberOfPortsToTry
    requires register(PropsForPort(port))
    requires forall q :: GetStartingPort(serviceName) <= q < port ==> !register(PropsForPort(q))
    ensures ChosenPort(serviceName, register) == Some(port)
  {
    var ports, start := CandidatePorts(serviceName), GetStartingPort(serviceName);
    var accepts := Registers(register);
    var k := port - start;
    forall j | 0 <= j < k ensures !accepts(ports[j]) {
      assert start <= ports[j] < port;
    }
    PortScan.FirstAcceptedIs(ports, accepts, k);
  }

  /** When no candidate registers, no port is chosen. */
  lemma NoPortChosen(serviceName: string, register: ChannelProps -> bool)
    requires forall q :: GetStartingPort(serviceName) <= q < GetStartingPort(serviceName) + NumberOfPortsToTry ==>
               !register(PropsForPort(q))
    ensures ChosenPort(serviceName, register) == None
  {
    var ports := CandidatePorts(serviceName);
    assert forall j :: 0 <= j < |ports| ==> !Registers(register)(ports[j]);
  }

  /**
   * The chosen port is the lowest candidate whose channel registers; there is
   * none exactly when no candidate registers.
   */
  lemma ChosenPortIsLowestRegistered(serviceName: string, register: ChannelProps -> bool)
    ensures ChosenPort(serviceName, register).Some? ==>
              var p := ChosenPort(serviceName, register).value;
              && GetStartingPort(serviceName) <= p < GetStartingPort(serviceName) + NumberOfPortsToTry
              && register(PropsForPort(p))
              && forall q :: GetStartingPort(serviceName) <= q < p ==> !register(PropsForPort(q))
    ensures ChosenPort(serviceName, register).None? <==>
              forall q :: GetStartingPort(serviceName) <= q < GetStartingPort(serviceName) + NumberOfPortsToTry ==>
                !register(PropsForPort(q))
  {
    var ports, start := CandidatePorts(serviceName), GetStartingPort(serviceName);
    var accepts := Registers(register);
    var r := PortScan.FirstAccepted(ports, accepts);
    if r.Some? {
      forall q | start <= q < ports[r.value] ensures !register(PropsForPort(q)) {
        assert ports[q - start] == q && !accepts(ports[q - start]);
      }
    } else {
      forall q | start <= q < start + NumberOfPortsToTry ensures !register(PropsForPort(q)) {
        assert ports[q - start] == q && !accepts(ports[q - start]);
      }
    }
  }

  /**
   * Where the scan of `GetAChannelWeCanUse` stops: at the chosen port when a
   * candidate registers, one past the window when none does.
   */
  lemma ScanOutcome(serviceName: string, register: ChannelProps -> bool, port: int)
    requires GetStartingPort(serviceName) <= port <= GetStartingPort(serviceName) + NumberOfPortsToTry
    requires forall q :: GetStartingPort(serviceName) <= q < port ==> !register(PropsForPort(q))
    requires port < GetStartingPort(serviceName) + NumberOfPortsToTry ==> register(PropsForPort(port))
    ensures port < GetStartingPort(serviceName) + NumberOfPortsToTry ==> ChosenPort(serviceName, register) == Some(port)
    ensures port == GetStartingPort(serviceName) + NumberOfPortsToTry ==> ChosenPort(serviceName, register) == None
  {
    if port < GetStartingPort(serviceName) + NumberOfPortsToTry {
      ChosenPortIsFirstRegistered(serviceName, register, port);
    } else {
      NoPortChosen(serviceName, register);
    }
  }

  /** "Could not find a free port on which to create the service." */
  datatype AllocationError = NoFreePort

  /**
   * `GetAChannelWeCanUse`: tries to register a channel on each candidate in
   * ascending order and stops at the first that registers. `register(props)`
   * is true when creating and registering the channel does not throw.
   * `tried` lists the ports attempted, in order.
   */
  method GetAChannelWeCanUse(serviceName: string, register: ChannelProps -> bool)
    returns (r: Result<int, AllocationError>, ghost tried: seq<int>)
    ensures r.Ok? ==> GetStartingPort(serviceName) <= r.value < GetStartingPort(serviceName) + NumberOfPortsToTry
    ensures r.Ok? ==> register(PropsForPort(r.value))
    ensures r.Ok? ==> forall q :: GetStartingPort(serviceName) <= q < r.value ==> !register(PropsForPort(q))
    ensures r.Err? <==>
              forall q :: GetStartingPort(serviceName) <= q < GetStartingPort(serviceName) + NumberOfPortsToTry ==>
                !register(PropsForPort(q))
    ensures r.Ok? ==> ChosenPort(serviceName, register) == Some(r.value)
    ensures r.Err? ==> ChosenPort(serviceName, register) == None
    ensures |tried| <= NumberOfPortsToTry
    ensures forall i :: 0 <= i < |tried| ==> tried[i] == GetStartingPort(serviceName) + i
    ensures r.Ok? ==> |tried| > 0 && tried[|tried| - 1] == r.value
    ensures r.Err? ==> |tried| == NumberOfPortsToTry
  {
    var startingPort := GetStartingPort(serviceName);
    var props := ChannelProps(LoopbackAddress, ServiceNames.GetChannelName(startingPort), startingPort);
    var port := startingPort;
    tried := [];
    while port < startingPort + NumberOfPortsToTry
      invariant startingPort <= port <= startingPort + NumberOfPortsToTry
      invariant props.bindTo == LoopbackAddress
      invariant |tried| == port - startingPort
      invariant forall i :: 0 <= i < |tried| ==> tried[i] == startingPort + i
      invariant forall q :: startingPort <= q < port ==> !register(PropsForPort(q))
    {
      props := props.(port := port, name := ServiceNames.GetChannelName(port));
      assert props == PropsForPort(port);
      tried := tried + [port];
      if register(props) {
        break;
      }
      port := port + 1;
    }
    ScanOutcome(serviceName, register, port);
    if port < startingPort + NumberOfPortsToTry {
      return Ok(port), tried;
    }
    return Err(NoFreePort), tried;
  }
}
