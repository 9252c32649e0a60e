/**
 * The server side: claiming a port in the candidate window, taking the
 * presence mutex for that port and service name, and publishing the object.
 */
module ServiceHost {
  import opened Results
  import opened ServiceNames
  import opened PortAllocator

  /** Why starting a service fails. */
  datatype StartError =
    | PortsExhausted      // "Could not find a free port on which to create the service."
    | PresenceMutexTaken  // "We thought the port was free, but couldn't get the port+serviced name mutex."

  /**
   * What a started service holds: the port its channel is registered on, the
   * name of the presence mutex it owns, and the URI its object is published under.
   */
  datatype ServiceHandle = ServiceHandle(port: int, presenceMutex: string, objectUri: string)

  /**
   * `StartServingObject`: registers a channel on the first free candidate,
   * then takes that port's presence mutex (`acquire(name)` is true when
   * `WaitOne(10)` on it succeeds) and publishes the object under the
   * fixed-up service name.
   */
  method StartServingObject(unescapedServiceName: string, platform: Platform,
                            register: ChannelProps -> bool, acquire: string -> bool)
    returns (r: Result<ServiceHandle, StartError>)
    requires '%' !in unescapedServiceName
    ensures r == Err(PortsExhausted) <==> ChosenPort(unescapedServiceName, register) == None
    ensures r == Err(PresenceMutexTaken) <==>
              && ChosenPort(unescapedServiceName, register).Some?
              && !acquire(MutexName(ChosenPort(unescapedServiceName, register).value, unescapedServiceName, platform))
    ensures r.Ok? ==>
              && ChosenPort(unescapedServiceName, register) == Some(r.value.port)
              && r.value.presenceMutex == MutexName(r.value.port, unescapedServiceName, platform)
              && acquire(r.value.presenceMutex)
              && r.value.objectUri == FixupServiceName(unescapedServiceName)
  {
    var chosen, _ := GetAChannelWeCanUse(unescapedServiceName, register);
    if chosen.Err? {
      return Err(PortsExhausted);
    }
    var port := chosen.value;
    var portAndServiceMutex := GetNameOfMutexForPortAndService(port, unescapedServiceName, platform);
    if !acquire(portAndServiceMutex) {
      return Err(PresenceMutexTaken);
    }
    return Ok(ServiceHandle(port, portAndServiceMutex, FixupServiceName(unescapedServiceName)));
  }
}
