/** How the host's choices and the locator's scan fit together. */
module Discovery {
  import opened Results
  import opened ServiceNames
  import opened PortAllocator
  import opened ServiceLocator

  /**
   * A host that registered on its chosen port, whose presence mutex is
   * visible and which answers the ping, is found by the locator at that port
   * or at a lower candidate; at exactly that port when no lower candidate
   * carries a presence mutex for the name.
   */
  lemma HostIsLocated(serviceName: string, platform: Platform, register: ChannelProps -> bool,
                      mutexExists: string -> bool, pingSucceeds: string -> bool)
    requires ChosenPort(serviceName, register).Some?
    requires mutexExists(MutexName(ChosenPort(serviceName, register).value, serviceName, platform))
    requires pingSucceeds(ServiceUrl(serviceName, ChosenPort(serviceName, register).value))
    ensures LocatedPort(serviceName, platform, mutexExists, pingSucceeds).Some?
    ensures LocatedPort(serviceName, platform, mutexExists, pingSucceeds).value <= ChosenPort(serviceName, register).value
    ensures (forall q :: GetStartingPort(serviceName) <= q < ChosenPort(serviceName, register).value ==>
               !mutexExists(MutexName(q, serviceName, platform))) ==>
            LocatedPort(serviceName, platform, mutexExists, pingSucceeds) == ChosenPort(serviceName, register)
  {
    var p := ChosenPort(serviceName, register).value;
    ChosenPortIsLowestRegistered(serviceName, register);
    LocatedPortIsLowestLive(serviceName, platform, mutexExists, pingSucceeds);
    if (forall q :: GetStartingPort(serviceName) <= q < p ==> !mutexExists(MutexName(q, serviceName, platform))) {
      LocatedPortIsFirstAnswering(serviceName, platform, mutexExists, pingSucceeds, p);
    }
  }

  /**
   * When no candidate port carries a presence mutex for the name (no host
   * ever started, or every host has exited and the system released its
   * mutex), the locator finds nothing.
   */
  lemma AbsentHostIsNotLocated(serviceName: string, platform: Platform,
                               mutexExists: string -> bool, pingSucceeds: string -> bool)
    requires forall q :: GetStartingPort(serviceName) <= q < GetStartingPort(serviceName) + NumberOfPortsToTry ==>
               !mutexExists(MutexName(q, serviceName, platform))
    ensures LocatedPort(serviceName, platform, mutexExists, pingSucceeds) == None
  {
    LocatedPortIsLowestLive(serviceName, platform, mutexExists, pingSucceeds);
  }

  /** Host and locator look at one and the same window: the chosen and the located port both lie in it. */
  lemma HostAndLocatorShareWindow(serviceName: string, platform: Platform, register: ChannelProps -> bool,
                                  mutexExists: string -> bool, pingSucceeds: string -> bool)
    ensures ChosenPort(serviceName, register).Some? ==>
              ChosenPort(serviceName, register).value in CandidatePorts(serviceName)
    ensures LocatedPort(serviceName, platform, mutexExists, pingSucceeds).Some? ==>
              LocatedPort(serviceName, platform, mutexExists, pingSucceeds).value in CandidatePorts(serviceName)
  {
    ChosenPortIsLowestRegistered(serviceName, register);
    LocatedPortIsLowestLive(serviceName, platform, mutexExists, pingSucceeds);
    CandidateWindow(serviceName);
  }
}
