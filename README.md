# Port discovery for Palaso inter-process services

Palaso's `IpcSystem` lets independent processes on one machine find each other.
Each process uses a shared *service name* ("WeSay.Dictionary", say).
No directory server is involved: host and client derive the same short window of TCP ports from the name.

- **The window.** A DJB2-style rolling hash of the name's UTF-16 code units is folded to one byte. The window then starts at `5678 + 4 * byte` and spans four ports.
- **The host** (`StartServingObject`) works in three steps:
  - it registers an HTTP channel on the first port of the window that accepts one;
  - it takes a named *presence mutex* `Palaso.IPSystem:<port>/<sanitized name>`;
  - it publishes its object under the name with backslashes turned into slashes.
- **The client** (`GetExistingService`) walks the same window in the same order:
  - it skips every port whose presence mutex does not exist;
  - it pings the proxy at `http://localhost:<port>/<fixed-up name>` on every other port, where the fixed-up name has each backslash turned into a slash;
  - it keeps the first port that answers, or returns null.

The model is in Dafny:

| module | file | what it holds |
|---|---|---|
| `Results` | `results.dfy` | `Option` and `Result` |
| `CodeUnits` | `code_units.dfy` | the 16-bit code unit of a given value |
| `Decimal` | `decimal.dfy` | `int.ToString()`, with parse-back and injectivity |
| `NameHasher` | `name_hasher.dfy` | `GetStringHash`, as a loop over `bv32` proved against a fold |
| `PortScan` | `port_scan.dfy` | the first-match search both scans are specified by |
| `ServiceNames` | `service_names.dfy` | `FixupServiceName`, `URLPrefix`, `GetUrlForService`, `GetChannelName`, `GetNameOfMutexForPortAndService` |
| `PortAllocator` | `port_allocator.dfy` | `GetStartingPort`, the candidate window, `GetAChannelWeCanUse` |
| `ServiceLocator` | `service_locator.dfy` | `GetExistingService` |
| `ServiceHost` | `service_host.dfy` | `StartServingObject` up to the presence-mutex claim |
| `Discovery` | `discovery.dfy` | how the host's choice and the client's scan meet |

The outside world enters as boolean functions passed in as parameters:

- `register(props)`: creating and registering an HTTP channel with these settings does not throw.
- `mutexExists(name)`: `Mutex.OpenExisting(name)` succeeds.
- `pingSucceeds(url)`: a ping of the proxy pointed at `url` does not throw.
- `acquire(name)`: `WaitOne(10)` on the presence mutex succeeds.

The platform's invalid path and file-name characters are a `Platform` value.

The hash accumulator is a `bv32`. It has the bit pattern of C#'s signed `int`, and its arithmetic wraps modulo 2^32 as unchecked C# arithmetic does.
`ArithmeticShiftRight` models C#'s sign-filling `>>`.
`FoldToByte` proves that the final `& 0xff` makes the sign fill irrelevant.

## Model

| member | source | states |
|---|---|---|
| NameHasher.GetStringHash | Palaso.Services/IPCSystem.cs:45-54 | the loop `hash = ((hash << 5) + hash) + c` over the code units, then the byte fold, yields a value below 256 equal to the reference `StringHash`: the XOR of the four bytes of the fold of `h*33 + c` (mod 2^32) from 5381 |
| NameHasher.StringHash | Palaso.Services/IPCSystem.cs:45-54 | the hash of any name is below 256 |
| NameHasher.XorOfBytes | Palaso.Services/IPCSystem.cs:52 | the XOR of the four bytes of a 32-bit value is below 256 |
| NameHasher.ShiftAdd | Palaso.Services/IPCSystem.cs:50 | `((hash << 5) + hash) + c` is one step `hash*33 + c` of the reference fold, modulo 2^32 |
| NameHasher.ShiftAddIsTimes33 | Palaso.Services/IPCSystem.cs:50 | `(h << 5) + h == h * 33` for every 32-bit `h` |
| NameHasher.FoldToByte | Palaso.Services/IPCSystem.cs:52 | the source's fold with arithmetic right shifts, masked with `0xff`, equals the XOR of the four bytes |
| NameHasher.ArithmeticShiftLowByte | Palaso.Services/IPCSystem.cs:52 | for shifts of 8, 16 or 24, the low byte of a sign-filling shift equals that of a logical shift |
| NameHasher.AccumulatorStep | Palaso.Services/IPCSystem.cs:48-51 | the accumulator over one more code unit is one more step of the fold |
| NameHasher.EmptyNameHash | Palaso.Services/IPCSystem.cs:47-52 | the empty name hashes to 0x05 ^ 0x15 = 16 |
| NameHasher.CodeUnitsOf | Palaso.Services/IPCSystem.cs:48 | a character is one UTF-16 code unit exactly when it lies below U+10000, and two otherwise |
| NameHasher.Utf16OfBasicPlane | Palaso.Services/IPCSystem.cs:48 | for a name of characters below U+10000, `foreach (char c in str)` visits exactly the name's characters |
| NameHasher.Utf16 | Palaso.Services/IPCSystem.cs:48 | the code units `foreach (char c in str)` visits: each character's UTF-16 encoding in order; its properties are `Utf16Append`, `Utf16OfBasicPlane` and `CodeUnitsDecode` |
| NameHasher.Utf16Append | Palaso.Services/IPCSystem.cs:48 | the code units of a concatenation are those of its parts, one after the other |
| NameHasher.CodeUnitsDecode | Palaso.Services/IPCSystem.cs:48 | a character below U+10000 is one code unit of its own value; a character above is a high surrogate in 0xD800-0xDBFF and a low surrogate in 0xDC00-0xDFFF that decode back to it |
| NameHasher.ArithmeticShiftRight | Palaso.Services/IPCSystem.cs:52 | C#'s `>>` on a signed 32-bit `int`: a logical shift, with the vacated high bits set when the sign bit is set; `ArithmeticShiftLowByte` and `FoldToByte` state what the fold needs of it |
| PortAllocator.GetStartingPort | Palaso.Services/IPCSystem.cs:34-43 | the starting port lies between 5678 and 5678 + 255*4 |
| PortAllocator.StartingPortEncodesHash | Palaso.Services/IPCSystem.cs:39-41 | the starting port is 5678 + 4*hash: its offset from the base is a multiple of 4 whose quotient is the hash |
| PortAllocator.CandidatePorts | Palaso.Services/IPCSystem.cs:76 | the candidates are the 4 ports from the starting port upwards, the i-th being start + i |
| PortAllocator.CandidateWindow | Palaso.Services/IPCSystem.cs:25-27 | the window is strictly ascending, lies inside [5678, 5678+1024) and is exactly [start, start+4) |
| PortAllocator.WindowsCoincideOrAreDisjoint | Palaso.Services/IPCSystem.cs:34-43 | names with equal hashes share their window; names with different hashes have disjoint windows |
| PortAllocator.GetAChannelWeCanUse | Palaso.Services/IPCSystem.cs:135-191 | the loop returns a port of the window that registered after every lower candidate failed, which is `ChosenPort`; it fails exactly when all four candidates fail; it tries the ports start, start+1, … in order, ending at the returned port, or tries all four on failure |
| PortAllocator.ChosenPortIsLowestRegistered | Palaso.Services/IPCSystem.cs:153-190 | the chosen port lies in the window, registers, and every lower candidate fails; there is none exactly when every candidate fails |
| PortAllocator.ChosenPortIsFirstRegistered | Palaso.Services/IPCSystem.cs:153-190 | a candidate that registers after all lower ones failed is the chosen port |
| PortAllocator.NoPortChosen | Palaso.Services/IPCSystem.cs:186-190 | when no candidate registers, no port is chosen |
| PortAllocator.ScanOutcome | Palaso.Services/IPCSystem.cs:186-190 | where the scan stops decides the outcome: inside the window it is the chosen port, one past the window there is none |
| PortAllocator.PropsForPort | Palaso.Services/IPCSystem.cs:140-143 | the channel settings tried on a port: bound to `127.0.0.1`, named `http.<port>`, on that port, as lines 166-167 set them each iteration |
| PortScan.FirstAccepted | Palaso.Services/IPCSystem.cs:76-110 | the first-match search returns the index of an accepted element with every earlier one rejected, or nothing exactly when all are rejected |
| PortScan.FirstAcceptedIs | Palaso.Services/IPCSystem.cs:153-185 | an accepted index preceded only by rejected ones is the first match |
| PortScan.FirstAcceptedAtMost | Palaso.Services/IPCSystem.cs:76-110 | when some index is accepted, the first match exists and is no later than it |
| ServiceLocator.GetExistingService | Palaso.Services/IPCSystem.cs:66-111 | returns a new proxy exactly when some candidate answers, with its URL set for that lowest answering port (`LocatedPort`), and returns null otherwise; visits ports start, start+1, … in order, all four when it returns null; pings exactly the visited ports whose presence mutex exists |
| ServiceLocator.LocatedPortIsLowestLive | Palaso.Services/IPCSystem.cs:76-110 | the located port lies in the window, has its presence mutex and answers the ping, and no lower candidate has both; there is none exactly when no candidate has both |
| ServiceLocator.LocatedPortIsFirstAnswering | Palaso.Services/IPCSystem.cs:87-103 | a candidate that answers after all lower ones did not is the located port |
| ServiceLocator.NoPortLocated | Palaso.Services/IPCSystem.cs:110 | when no candidate answers, nothing is located |
| ServiceLocator.ServiceProxy.constructor | Palaso.Services/IPCSystem.cs:74 | the proxy is created once, before the scan, with no URL yet |
| ServiceHost.StartServingObject | Palaso.Services/IPCSystem.cs:238-277 | fails with "no free port" exactly when no candidate registers; fails with "mutex taken" exactly when a port was chosen but its presence mutex cannot be acquired; otherwise holds the chosen port, that port's presence mutex name (acquired) and the fixed-up service name as the object URI |
| ServiceNames.FixupServiceName | Palaso.Services/IPCSystem.cs:120-123 | length is kept, no backslash remains, each backslash becomes `/` and every other character is kept |
| ServiceNames.FixupServiceNameIdempotent | Palaso.Services/IPCSystem.cs:120-123 | fixing up a fixed-up name changes nothing |
| ServiceNames.URLPrefix | Palaso.Services/IPCSystem.cs:56-63 | the scheme and host of every service URL, `http://localhost` |
| ServiceNames.GetUrlForService | Palaso.Services/IPCSystem.cs:115-118 | `http://localhost:` + decimal port + `/` + fixed-up name; `UrlAtCallSite` and `UrlDistinguishesPorts` state its properties |
| ServiceNames.GetChannelName | Palaso.Services/IPCSystem.cs:216-219 | `http.` + decimal port; `ChannelNameDistinguishesPorts` states that it determines the port |
| ServiceNames.UrlAtCallSite | Palaso.Services/IPCSystem.cs:84 | the client's `GetUrlForService(FixupServiceName(name), port)` is `http://localhost:<port>/<fixed-up name>`: the double fix-up equals a single one |
| ServiceNames.UrlDistinguishesPorts | Palaso.Services/IPCSystem.cs:115-118 | equal URLs for one name mean equal ports |
| ServiceNames.ChannelNameDistinguishesPorts | Palaso.Services/IPCSystem.cs:216-219 | equal channel names mean equal ports |
| ServiceNames.ReplaceAll | Palaso.Services/IPCSystem.cs:207 | replacing keeps the length, maps each character in the set to the replacement and keeps every other |
| ServiceNames.ReplaceAllTwice | Palaso.Services/IPCSystem.cs:205-212 | replacing one set and then another is replacing their union |
| ServiceNames.ReplaceAllIdempotent | Palaso.Services/IPCSystem.cs:207 | replacing twice is replacing once |
| ServiceNames.ReplaceOneMore | Palaso.Services/IPCSystem.cs:205-212 | one more loop iteration grows the replaced set by that iteration's character |
| ServiceNames.GetNameOfMutexForPortAndService | Palaso.Services/IPCSystem.cs:202-214 | the two loops yield `Palaso.IPSystem:` + decimal port + `/` + the name with every invalid path or file-name character replaced by `_` |
| ServiceNames.SanitizedServiceName | Palaso.Services/IPCSystem.cs:202-212 | the sanitized name keeps the length and every valid character; when `_` is itself valid it holds no invalid character; sanitizing twice equals sanitizing once |
| ServiceNames.MutexNameDistinguishes | Palaso.Services/IPCSystem.cs:213 | equal mutex names mean equal ports and equal sanitized service names |
| Decimal.DigitChar | Palaso.Services/IPCSystem.cs:213 | a digit below 10 becomes the character of that value |
| Decimal.ToDecimal | Palaso.Services/IPCSystem.cs:213 | `port.ToString()`, also implicit in the string concatenations at lines 117 and 218: `ToDecimalShape`, `ToDecimalRoundTrip` and `ToDecimalInjective` state its properties |
| Decimal.ToDecimalShape | Palaso.Services/IPCSystem.cs:213 | `port.ToString()` is a numeral: digits for non-negative ports, `-` and digits for negative ones, with no slash or backslash |
| Decimal.NatDigitsAreDigits | Palaso.Services/IPCSystem.cs:213 | the decimal form of a natural number is a non-empty run of digits |
| Decimal.NatDigitsRoundTrip | Palaso.Services/IPCSystem.cs:213 | reading back the digits of a natural number gives that number |
| Decimal.ToDecimalRoundTrip | Palaso.Services/IPCSystem.cs:213 | parsing `port.ToString()` gives back `port` |
| Decimal.ToDecimalInjective | Palaso.Services/IPCSystem.cs:213 | different ports have different decimal forms |
| Discovery.HostIsLocated | Palaso.Services/IPCSystem.cs:76-110 | if the host's chosen port has its mutex and answers the ping, the client locates that port or a lower one, and exactly that port when no lower candidate has a presence mutex |
| Discovery.AbsentHostIsNotLocated | Palaso.Services/IPCSystem.cs:89-95 | when no candidate carries a presence mutex for the name, the client finds nothing |
| Discovery.HostAndLocatorShareWindow | Palaso.Services/IPCSystem.cs:76 | the host's chosen port and the client's located port both lie in the name's one candidate window |

## Left out

- .NET remoting and XML-RPC are outside the model. `HttpChannel`, `ChannelServices.RegisterChannel`, `XmlRpcProxyGen.Create`, `RemotingServices.Marshal` and the `Ping` transport call are foreign library calls. They appear only as the `register` and `pingSucceeds` outcomes.
- Named OS mutexes are outside the model. Creation, `OpenExisting`, the `WaitOne` timeout and release on process death are OS concurrency primitives. They appear only as the `mutexExists` and `acquire` outcomes. The handle that `OpenExisting` returns, and that the client never disposes, is not modelled.
- `ServiceLocator.GetExistingService` models `Ping` only as "throws or not". Its return value is ignored by the source too.
- `IsWellFormedUriStringMonoSafe` and the `Debug.Assert` that uses it are outside the model. They are a wrapper over `Uri.IsWellFormedUriString` with a Mono-bug workaround. Only the other debug assertion, "no `%` in the name", is kept, as a `requires`.
- The `OptimizeRawPortChoosing` and `DoWeNeedThis` branches and `GetMutexForPort` are not modelled, because they are not compiled in the normal build.
- `GetRemotingNameForService` is not modelled: it returns its argument unchanged and nothing in the core calls it.
- `ServiceHost.StartServingObject` omits the rewrap of `RemotingException` into `ApplicationException`. That exception comes from the remoting layer, which is outside the model.
- `ServiceHost.StartServingObject` returns a `ServiceHandle` record in place of `IpcServiceDescriptor`, which is not part of this model. The record holds the port, the presence mutex name and the object URI. Disposing the handle is not modelled.
- `PortAllocator.StartingPortBase` is a writable static field in the source. It is fixed here at its default, 5678.
- `Decimal.ToDecimal` writes negative numbers with an ASCII `-`, the invariant-culture form. Culture-specific negative signs are not modelled. Ports derived from the hash are never negative.
- Logging through `Debug.WriteLine` and `Console.WriteLine` is not modelled.
- `ServiceHost.StartServingObject` does not track resources held after a failed mutex claim. When the presence mutex cannot be taken (Palaso.Services/IPCSystem.cs:258-262), the channel that `GetAChannelWeCanUse` registered stays registered, and the `Mutex` created at line 258 is not disposed. The model reports `PresenceMutexTaken` and tracks neither.
- `Path.GetInvalidPathChars()` and `Path.GetInvalidFileNameChars()` depend on the platform. They are the `Platform` parameter, not fixed sets.
- `NameHasher.GetStringHash` and `NameHasher.Utf16` take a model string, which is a sequence of Unicode scalar values. A .NET string may also hold unpaired surrogates, and line 48 hashes those unit by unit. Such names cannot be written in the model.
