# FDBus: a verified model

FDBus is an IPC bus. Name servers and host servers find services, sessions carry
framed requests and replies, and objects publish cached events to subscribers.
This project models the stateful core of it in Dafny and proves what holds over
every input and every run.

Verify everything with `dafny verify dfyconfig.toml`.

| file | component |
|---|---|
| `HostNetwork.dfy`, `HostServer.dfy`, `ServiceTables.dfy` | host servers and the network they form |
| `NameServer.dfy`, `Registry.dfy`, `AddressAllocator.dfy`, `BindRetry.dfy`, `Announce.dfy` | the name server |
| `EventObject.dfy`, `EventCache.dfy`, `SubscribeTable.dfy`, `EventCode.dfy` | objects, subscriptions and cached events |
| `Framing.dfy`, `MessageHeader.dfy`, `Serializer.dfy`, `Codec.dfy` | the wire: frames, heads, serializer |
| `PendingTable.dfy` | requests that wait for a reply |
| `DataPool.dfy` | the data pool |
| `LogCache.dfy`, `LogFiles.dfy` | log cache and log file rotation |
| `KeyOrder.dfy`, `Maybes.dfy` | ordered walks, optional values |

Each component has a value-level part (states, steps, specification functions,
and the theorems about them) and, where the source changes things in place, a
class whose methods are proved against that part.

## Main results

- In every run of a network of host servers, with tables delivered late, twice
  or never, an address in a downstream table or in an upward message was
  published here or further down and passed the minimum of every forwarder
  (`NeverLearnedFromAbove`). An address can get into these tables, or into an
  upstream table, if and only if it is what a published address becomes on a path
  with open filters, rewritten and not erased on any link (`KnownIffClimbed`,
  `HeardIffRouted`).
- Whatever a name server ever announces was bound when announced, an invariant
  of the class `NameServer`; bind retries are bounded (`HitsAreBounded`);
  address and instance allocation succeed exactly when one of the candidates is
  free (`AllocateAddress`, `EnoughOffers`, `AllocateInstance`).
- Early and late subscribers of a cached event agree in every run
  (`EarlyAndLateSubscribersAgree`).
- Frames survive every cutting of the byte stream, in chunked and in blocking
  sessions alike (`ReceiveFramed`, `ReceiveBlocking`), down to the bytes that
  sender and serializer put into arrays.
- Every pending request ends exactly once (`EveryRequestEndsOnce`); no data-pool
  subscription is missed or lost (`NothingMissedNothingLost`); the log cache is
  always the longest fitting suffix of its history (`PushKeepsWindow`).

## Findings

These are places where the code does less than one may expect. Each is proved
with its exact condition and shown on an instance.

- A no-reflect message overwrites its own object id while it is delivered, so
  the group lookups compare against the wrong object (`NoReflectExactIff`,
  `NoReflectFailsForGroups`).
- A log file limit of zero or less is accepted and breaks the storage bound
  (`StorageBoundIff`, `SmallLimitBreaksTheBound`).
- Strings of 65535 bytes or more do not come back (`StringRoundTripIff`,
  `LongStringIsLost`).
- A pending request is silently not entered when its serial number is still in
  use after a wrap-around (`EnteredIff`, `LostAfterWrapAround`).
- The tries of an address allocation follow the number of service names, not of
  addresses, so allocation can fail although a later offer is free
  (`AllocateAddress`, `MissesFreeAddress`).
- A minimum or maximum level of zero lets nothing pass, not even addresses of
  level zero (`MinimumHoldsIff`, `MaximumHoldsIff`, `ZeroLetsNothingPass`).
- When two addresses of a service share a URL, a bind report reaches only the
  first, so only a report whose first match is pending lowers the retry measure
  (`ReportSpends`, `SecondOfTwoIsMissed`).
- A frame whose head announces more bytes than the frame has is not refused in
  the source; its payload lies inside the frame only if head and payload are not
  longer than the rest of it (`PayloadInsideIff`, `PayloadBeyondFrame`). The model
  ends the session instead.
- Addresses that are only good on their own host are meant to be dropped from
  tables from above, but are kept when the service has no others (`LocalKeptIff`,
  `LocalHostIsPassedDown`).

## Model

The main results come first, then the members behind them, by component.

| member | source | states |
|---|---|---|
| HostNetwork.NeverLearnedFromAbove | server/CHostServer.cpp:296-351 | in every run, each address in a downstream table or in a message posted upstream was published at that host server or at one reachable downward from it, and its level is at least the minimum of every server that forwarded it |
| HostNetwork.KnownIffClimbed | server/CHostServer.cpp:402-466 | an address can get into the local or downstream tables of a server if and only if it is what some published address becomes on a way up whose every minimum its level meets, checked and rewritten with the peer of each link |
| HostNetwork.HeardIffRouted | server/CHostServer.cpp:372-400 | an address can get into an upstream table of a server if and only if it is what some published address becomes on a way that climbs and then descends, with every minimum and maximum passed; only sessions that subscribed are sent to |
| HostNetwork.OnlyReachableFromBelow | server/CSvcAddrUtils.cpp:387-419 | in every run, when the servers below are on other hosts, downstream tables hold no IPC, local-host or all-interface address |
| HostNetwork.RunHasRoutes | server/CHostServer.cpp:272-293 | in every run, every address in every table and message has a route that first climbs and then descends, with every forwarder's filter passed |
| NameServer.NameServer.OnRegisterService | server/CNameServer.cpp:794-973 | bad, unknown and empty reports are told apart; otherwise the reports are worked off in order, and the service is announced exactly when nothing is pending |
| NameServer.NoticesAreHonest | server/CNameServer.cpp:919-973 | a service without pending addresses is announced with bound addresses only |
| NameServer.NameServer.AllocateInstance | server/CNameServer.cpp:496-524 | terminates from any counter with the first free instance of the group, and with none if and only if all candidates are taken |
| NameServer.NameServer.OnOffline | server/CNameServer.cpp:1777-1806 | terminates and removes exactly the session's entries, whatever their names, leaving the others unchanged and the table canonical |
| BindRetry.HitsAreBounded | server/CNameServer.cpp:845-917 | over any number of requests at most as many reports concern a pending address as the measure allows; then none is pending |
| AddressAllocator.EnoughOffers | server/CNameServer.cpp:1542-1566 | pigeonhole: with fewer registered URLs than tries and enough different offers allocation succeeds |
| EventCache.EarlyAndLateSubscribersAgree | fdbus/CFdbBaseObject.cpp:686-759 | in every run every follower of an event has last received the cached value |
| EventObject.QueryMatchesBroadcast | fdbus/CFdbBaseObject.cpp:1331-1340 | a broadcast reaches exactly the sessions the query reports, the no-reflect sender aside |
| EventObject.NoReflectExactIff | fdbus/CEventSubscribeHandle.cpp:143-209 | no-reflect spares exactly the sender's entries in every order of the sessions if and only if the greatest objects in the tables are harmless |
| SubscribeTable.EventSubscribeHandle.Broadcast | fdbus/CEventSubscribeHandle.cpp:162-209 | sends once to exactly the matching keys but the reflected ones; says whether any matched; leaves the greatest object of some session in the message |
| Framing.ReceiveFramed | fdbus/CFdbSession.cpp:255-296 | framed messages arrive as themselves in order over any cutting of the stream |
| Framing.ReceiveBlocking | fdbus/CFdbSession.cpp:298-325 | blocking input delivers the same |
| Codec.SequenceRoundTrip | fdbus/CFdbSimpleSerializer.cpp:84-235 | any sequence of encodable items is read back as itself, wherever it is in the buffer |
| Serializer.SimpleSerializer.AddAll | fdbus/CFdbSimpleSerializer.cpp:84-151 | the written bytes depend on the items only, not on the host |
| PendingTable.EveryRequestEndsOnce | fdbus/CBaseSession.cpp:279-412 | in every run each entered request waits or ended exactly once, and none is older than the limit |
| PendingTable.EnteredIff | public/fdbus/CEntityContainer.h:35-53 | a sent request is entered if and only if no request a multiple of 2^32 sends earlier still waits |
| DataPool.NothingMissedNothingLost | datapool/CDataPool.cpp:427-527 | in every run no pending subscription is for a served topic, and pending and served listeners are exactly those ever subscribed |
| LogCache.PushKeepsWindow | log/CFdbLogCache.cpp:85-114 | evicting and appending gives the longest suffix of the history that fits, or the last item |
| LogFiles.StorageBoundIff | log/CLogFileManager.cpp:149-160 | every run stays within the storage if and only if the file limit is positive |
| HostNetwork.StepKeepsRoutes | server/CHostServer.cpp:339-496 | any event at any server, with any table ever sent arriving, keeps all routes |
| HostNetwork.TablesKeepRoutes | server/CHostServer.cpp:103-270 | after any event local tables are from here, downstream tables from below, upstream tables from above |
| HostNetwork.MessagesKeepRoutes | server/CHostServer.cpp:331-410 | whatever an event sends has routes and passes the sender's filter |
| HostNetwork.ChangesHaveRoutes | server/CHostServer.cpp:353-483 | the messages after a local, downstream or upstream change come from tables with routes |
| HostNetwork.UpstreamTableHasRoutes | server/CHostServer.cpp:338-343 | the table posted upstream holds only addresses that came from here or below |
| HostNetwork.DownstreamTableHasRoutes | server/CHostServer.cpp:345-351 | the table broadcast downstream holds only routed addresses within the domain level |
| HostNetwork.LocalTableHasRoutes | server/CHostServer.cpp:331-336 | the table broadcast to local name servers holds only routed addresses within the domain level |
| HostNetwork.LocalPost | server/CHostServer.cpp:360-370 | a post of a local name server keeps routes |
| HostNetwork.DomainPost | server/CHostServer.cpp:440-466 | a post from below keeps routes |
| HostNetwork.UpstreamUpdate | server/CHostServer.cpp:485-496 | a table from above keeps routes |
| HostNetwork.CanPublish | server/CHostServer.cpp:134-246 | a name server can register and publish an address, which is kept as its session's peer makes it |
| HostNetwork.CanConnect | server/CInterHostProxy.cpp:61-72 | a server connects upstream, asks to be registered and is acknowledged, in this order |
| HostNetwork.CanRegister | server/CInterHostProxy.cpp:83-125 | once acknowledged it posts its table and follows the broadcasts |
| HostNetwork.CanHandUp | server/CInterHostProxy.cpp:83-125 | a server that knows an address whose level passes registers upstream and hands it over, rewritten with the peer of the link |
| HostNetwork.ClimbHappens | server/CHostServer.cpp:402-466 | every way up whose filters pass and whose links keep the address is taken by some run |
| HostNetwork.CanFollow | server/CHostServer.cpp:690-694 | a registered server that subscribes is sent the current table |
| HostNetwork.CanHandDown | server/CInterHostProxy.cpp:30-59 | a server that follows hears what the one above knows or heard, rewritten with the peer of the link, once no local service duplicates it |
| HostNetwork.DescentHappens | server/CHostServer.cpp:387-400 | every way down whose maxima pass is taken by some run |
| HostServer.UpstreamHolds | server/CHostServer.cpp:338-343 | upward goes an address if and only if its level passes and a ready local or downstream table holds it |
| HostServer.DownstreamHolds | server/CHostServer.cpp:345-351 | downward goes an address if and only if its level passes and any of the three tables holds it |
| HostServer.LocalHolds | server/CHostServer.cpp:331-336 | name servers get an address if and only if its level passes and an upstream or ready downstream table holds it |
| HostServer.InFromPeers | server/CHostServer.cpp:296-329 | gathering ready peers gives exactly their passing addresses |
| HostServer.InFromTables | server/CHostServer.cpp:308-316 | gathering upstream tables gives exactly their passing addresses |
| HostServer.NoLocalLeft | server/CHostServer.cpp:485-496 | a stored upstream table holds exactly the received services that duplicate no local one |
| HostServer.StoredUnlessLocal | server/CHostServer.cpp:485-496 | an address from above is stored if and only if some service that carries it duplicates no local one |
| HostServer.RegisteredIsSilent | server/CHostServer.cpp:152-157 | a host or domain that registers, even once more, is left out of every outgoing table until it is ready, and nothing else changes |
| HostServer.InPosts | server/CInterHostProxy.cpp:127-134 | a table is posted to exactly the connected upstream servers |
| HostServer.OnlineIsPostedTo | server/CInterHostProxy.cpp:61-72 | from the moment an upstream server is online until it is lost, after any events in between, every change of local or downstream tables is posted to it |
| HostServer.HostServer.PopulatePeers | server/CHostServer.cpp:296-329 | appends the filtered tables of ready peers in session order |
| HostServer.HostServer.PopulateUpstreamHost | server/CHostServer.cpp:308-316 | appends the filtered tables of all upstream servers |
| HostServer.HostServer.BroadcastToLocalHost | server/CHostServer.cpp:372-385 | sends upstream and downstream tables to local name servers |
| HostServer.HostServer.BroadcastToDownstreamHost | server/CHostServer.cpp:387-400 | sends all three tables to the given sessions below |
| HostServer.HostServer.BuildForUpstreamHost | server/CHostServer.cpp:338-343 | builds the table for upstream servers from downstream and local tables only |
| HostServer.HostServer.PostSvcTable | server/CInterHostProxy.cpp:127-134 | a table goes exactly to the connected upstream servers |
| HostServer.HostServer.PostToUpstreamHost | server/CHostServer.cpp:402-410 | posts the upstream table to every connected upstream server |
| HostServer.HostServer.UpdateLocalSvcTable | server/CHostServer.cpp:360-370 | replaces a local table under this domain's name and tells downstream and upstream |
| HostServer.HostServer.UpdateDomainSvcTable | server/CHostServer.cpp:440-446 | replaces a downstream table and tells everyone |
| HostServer.HostServer.UpdateUpstreamSvcTable | server/CHostServer.cpp:485-496 | replaces an upstream table without local duplicates and tells name servers and downstream |
| HostServer.HostServer.DropLocalServices | server/CHostServer.cpp:490-493 | removes the services of each local name server in turn |
| HostServer.HostServer.OnLocalHostReady | server/CHostServer.cpp:214-246 | a registered host becomes ready and its table is taken; others are ignored |
| HostServer.HostServer.OnExternalHostReady | server/CHostServer.cpp:248-270 | a registered domain becomes ready and its table is taken |
| HostServer.HostServer.OnPostLocalSvcAddress | server/CHostServer.cpp:412-429 | a registered host's new table is taken |
| HostServer.HostServer.OnPostDomainSvcAddress | server/CHostServer.cpp:448-466 | a registered domain's new table is taken |
| HostServer.HostServer.OnUnregisterLocalHost | server/CHostServer.cpp:597-622 | removes the first host with the address and sends no table |
| HostServer.HostServer.OnOffline | server/CHostServer.cpp:103-132 | removes a host, telling downstream and upstream, or a domain, telling name servers and downstream only |
| HostServer.HostServer.OnUpstreamAck | server/CInterHostProxy.cpp:83-125 | the acknowledged registration is answered with the upstream table and a subscription to broadcasts |
| HostServer.HostServer.OnUpstreamBroadcast | server/CInterHostProxy.cpp:30-59 | a broadcast from above is validated and stored |
| HostServer.HostServer.OnUpstreamLost | server/CInterHostProxy.cpp:74-81 | a lost upstream server's table is emptied and this is passed on |
| HostServer.HostServer.OnSubscribeLocal | server/CHostServer.cpp:684-688 | a new local subscriber gets the current upstream and downstream tables |
| HostServer.HostServer.OnSubscribeDownstream | server/CHostServer.cpp:690-694 | a session that subscribes gets all three current tables and is a follower from then on |
| HostServer.HostServer.OnLocalChanged | server/CHostServer.cpp:353-358 | a local change goes downstream and upstream |
| HostServer.HostServer.OnDomainChanged | server/CHostServer.cpp:431-438 | a downstream change goes to name servers, downstream and upstream |
| HostServer.HostServer.OnUpstreamChanged | server/CHostServer.cpp:479-484 | an upstream change goes to name servers and downstream, never upstream |
| ServiceTables.InExport | server/CSvcAddrUtils.cpp:115-145 | an exported table holds exactly the addresses whose level passes |
| ServiceTables.ExportTwice | server/CSvcAddrUtils.cpp:115-145 | filtering on two servers in a row is filtering once by both conditions |
| ServiceTables.HopsUp | server/CSvcAddrUtils.cpp:40-76 | over several hops upward the largest minimum counts |
| ServiceTables.HopsDown | server/CSvcAddrUtils.cpp:40-76 | over several hops downward the smallest maximum counts |
| ServiceTables.MinimumHoldsIff | server/CSvcAddrUtils.cpp:40-76 | the upward filter is the minimum if and only if that is not zero, and never lets a lower level pass |
| ServiceTables.MaximumHoldsIff | server/CSvcAddrUtils.cpp:40-76 | the downward filter is the maximum if and only if that is not zero, and never lets a higher level pass |
| ServiceTables.ZeroLetsNothingPass | server/CSvcAddrUtils.cpp:47-51 | with a level of zero no address passes at all |
| ServiceTables.PopulateFromHostInfo | server/CSvcAddrUtils.cpp:115-145 | appends exactly the services with passing addresses |
| ServiceTables.PopulateToHostInfo | server/CSvcAddrUtils.cpp:147-184 | keeps services as received; one without addresses leaves an empty entry |
| ServiceTables.StoredHolds | server/CSvcAddrUtils.cpp:147-184 | storing a table neither adds nor loses an address |
| ServiceTables.VerifyUrl | server/CSvcAddrUtils.cpp:387-428 | local addresses are dropped and all-interface ones get the peer's address |
| ServiceTables.VerifyAddresses | server/CSvcAddrUtils.cpp:387-419 | the same for one service, address by address |
| ServiceTables.InVerify | server/CSvcAddrUtils.cpp:387-428 | a table from below holds exactly what its addresses become: local ones nothing, all-interface ones the peer's address, others themselves |
| ServiceTables.RewritingKeepsSource | server/CSvcAddrUtils.cpp:315-428 | rewriting an address keeps its level and origin |
| ServiceTables.ValidateUrl | server/CSvcAddrUtils.cpp:315-385 | per service the best kind of address is kept |
| ServiceTables.ValidateAddresses | server/CSvcAddrUtils.cpp:315-376 | addresses on the peer come first, then all-interface ones, then others, else all stay |
| ServiceTables.HighestRankSurvives | server/CSvcAddrUtils.cpp:315-376 | of a service from above exactly the addresses of the highest rating there is are kept |
| ServiceTables.InValidate | server/CSvcAddrUtils.cpp:315-385 | every address of a table from above is one that arrived, rewritten if it was for all interfaces |
| ServiceTables.LocalKeptIff | server/CSvcAddrUtils.cpp:336-375 | an address only good on its own host gets through if and only if the service has no others, or the peer is this host and an all-interface address is rewritten to it |
| ServiceTables.LocalHostIsPassedDown | server/CSvcAddrUtils.cpp:371-375 | an instance: a service with a local-host address only |
| ServiceTables.IsSameService | server/CSvcAddrUtils.cpp:270-305 | two services are the same if any pair of addresses is the same socket |
| ServiceTables.RemoveDuplicateService | server/CSvcAddrUtils.cpp:262-313 | removes the services that are also local |
| ServiceTables.InWithoutDuplicates | server/CSvcAddrUtils.cpp:262-313 | exactly the services that duplicate no local one stay |
| NameServer.NameServer.ProcessReports | server/CNameServer.cpp:845-917 | the reports of a request form a run of bind reports followed by the unknown addresses |
| NameServer.NameServer.ProcessReport | server/CNameServer.cpp:847-911 | one report binds, retries, drops or adds an address as specified |
| NameServer.NameServer.Rebind | server/CNameServer.cpp:975-1046 | a retry gives a freshly allocated address below the limit and nothing otherwise |
| NameServer.NameServer.AllocateAgain | server/CNameServer.cpp:987-1017 | the retry uses the allocator of the address, or a host server's own |
| NameServer.NameServer.AnnounceService | server/CNameServer.cpp:928-972 | monitors, clients, remote and host servers hear of the service, with bound addresses only |
| NameServer.NameServer.PrepareAddresses | server/CNameServer.cpp:690-758 | one walk gives the lists for local clients, remote servers and monitors |
| NameServer.NameServer.constructor | server/CNameServer.cpp:112-130 | an empty registry; negative levels stand for the default |
| NameServer.ExportIsHonest | server/CNameServer.cpp:313-342 | what host servers are told is bound |
| NameServer.NameServer.TellHostServers | server/CNameServer.cpp:313-342 | exactly the services with bound addresses of the minimum level are exported |
| NameServer.NameServer.TellInstances | server/CNameServer.cpp:317-341 | the same for the instances of one service |
| NameServer.NameServer.BroadServiceAddress | server/CNameServer.cpp:1324-1388 | a subscriber hears of a service without pending addresses by its bound addresses, with the fallback to TCP |
| NameServer.NameServer.OnServiceOnlineReg | server/CNameServer.cpp:1390-1402 | a subscriber hears of exactly the services it asks for |
| NameServer.NameServer.TellOwnAddresses | server/CNameServer.cpp:272-289 | other hosts hear of the bound remote addresses of the name server |
| NameServer.NameServer.HasPendingAddress | server/CNameServer.cpp:678-688 | whether some address is pending |
| NameServer.NameServer.OnAllocServiceAddress | server/CNameServer.cpp:483-555 | exact cases of refusal; otherwise a new entry under a free instance with pending addresses nobody else holds |
| NameServer.NameServer.NewEntry | server/CNameServer.cpp:464-481 | a new entry gets a local socket and interface addresses |
| NameServer.NameServer.AddServiceAddresses | server/CNameServer.cpp:422-462 | offered addresses are appended as pending unless their URL is known |
| NameServer.NameServer.AddressRegistered | server/CNameServer.cpp:398-420 | whether the service already has the URL |
| NameServer.OffersAreAppended | server/CNameServer.cpp:440-462 | old addresses stay, new ones are pending and their URLs are new to the service |
| NameServer.NameServer.AllocateTcpAddresses | server/CNameServer.cpp:1650-1734 | offers to a user service are held by nobody or have an automatic port |
| NameServer.NameServer.CreateTcpAllocators | server/CNameServer.cpp:1568-1617 | fresh allocators for all interfaces |
| NameServer.NameServer.AddLocalAddress | server/CNameServer.cpp:1751-1760 | one local socket address is added |
| NameServer.NameServer.AddInetAddresses | server/CNameServer.cpp:1736-1749 | interface addresses are added; a host server uses allocators of its own |
| NameServer.NameServer.Online | server/CNameServer.cpp:1911-1941 | the name server's own entry holds bound addresses |
| NameServer.NameServer.BindNsAddress | server/CNameServer.cpp:1820-1855 | own addresses are bound or erased |
| NameServer.OwnAreBound | server/CNameServer.cpp:1820-1855 | none of them is left pending |
| NameServer.InBindOwn | server/CNameServer.cpp:1820-1855 | exactly the addresses that are bound or can be are kept, as bound |
| NameServer.NameServer.OnHostOnline | server/CNameServer.cpp:1059-1101 | with the first host server every service but host servers gets interface addresses |
| NameServer.NameServer.ExtendEntry | server/CNameServer.cpp:1077-1099 | one service gets pending addresses; the name server binds its own |
| NameServer.NameServer.FindService | server/CNameServer.cpp:2167-2191 | exactly the entries that match the name and cover the instance |
| NameServer.NameServer.FindInstances | server/CNameServer.cpp:2112-2165 | the covered instances of one service, in ascending order |
| NameServer.NameServer.EraseService | server/CNameServer.cpp:2193-2211 | removes the entry and, with the last instance, the name |
| NameServer.NameServer.RemoveService | server/CNameServer.cpp:1103-1161 | withdraws and removes a service; host servers hear of it if it was exported |
| NameServer.NameServer.OnUnregisterService | server/CNameServer.cpp:1163-1184 | a group is refused; otherwise the entry is removed |
| NameServer.NameServer.FindOwned | server/CNameServer.cpp:1782-1797 | finds an entry of the session if there is one |
| NameServer.ReportKeepsGood | server/CNameServer.cpp:845-917 | every address stays pending or bound, within the retry limit |
| Registry.EraseOwned | server/CNameServer.cpp:1777-1806 | removing one entry of the session leaves fewer, and the rest of the removal ends the same |
| Registry.OfflineUnique | server/CNameServer.cpp:1777-1806 | the result of a session going away is determined |
| Registry.CanonicalUnique | server/CNameServer.cpp:2193-2211 | canonical tables with the same entries are equal |
| Registry.EraseHas | server/CNameServer.cpp:2193-2211 | erasing removes one entry, keeps the others and canonicity |
| AddressAllocator.AllocateAddress | server/CNameServer.cpp:1542-1566 | a user service gets the first usable one of the next names + 7 offers, or nothing |
| AddressAllocator.AllocatedIsFree | server/CNameServer.cpp:1542-1566 | an ordinary URL that is handed out is held by nobody; nothing is handed out if and only if no try is usable |
| AddressAllocator.MissesFreeAddress | server/CNameServer.cpp:1542-1566 | allocation can fail although a later offer is free |
| AddressAllocator.FindAddress | server/CNameServer.cpp:1454-1475 | whether any registered service holds the URL on the transport |
| AddressAllocator.OffersDiffer | server/CAddressAllocator.cpp:115-150 | offers within the span of the allocator have different URLs |
| AddressAllocator.IpcAfter | server/CAddressAllocator.cpp:46-75 | the socket counter after k offers, with 32-bit wrap-around |
| AddressAllocator.TcpAfter | server/CAddressAllocator.cpp:115-150 | the port counter after k offers, cycling through the range |
| AddressAllocator.DecimalInjective | server/CAddressAllocator.cpp:59-66 | different numbers are printed differently |
| BindRetry.ReportSpends | server/CNameServer.cpp:845-911 | a report strictly lowers the retry measure if its first match is pending and leaves it unchanged otherwise |
| BindRetry.SecondOfTwoIsMissed | server/CNameServer.cpp:847-878 | an instance: a report on a URL that two addresses share leaves the second pending and the measure unchanged |
| BindRetry.MeasureCounts | server/CNameServer.cpp:975-983 | the measure is zero if and only if nothing is pending |
| BindRetry.ActSpends | server/CNameServer.cpp:907-917 | a report or the end of a request keeps retries within the limit and pays for what it hits |
| Announce.LocalIsBacked | server/CNameServer.cpp:727-770 | local clients only hear of bound addresses, possibly under the local host |
| Announce.SubscriberIsBacked | server/CNameServer.cpp:1324-1362 | a new subscriber only hears of bound addresses |
| Announce.SelectedIsBacked | server/CNameServer.cpp:257-270 | a list chosen by a condition that implies bound is bound |
| Announce.LocalOrigin | server/CNameServer.cpp:727-770 | every address for local clients is an address of the service or its local-host form |
| EventCache.StepKeepsCoherence | fdbus/CFdbBaseObject.cpp:1189-1293 | subscribe, unsubscribe, publish, broadcast and cache initialisation keep this |
| EventCache.UpdateStoresThePayload | fdbus/CFdbBaseObject.cpp:1189-1230 | what is not bypassed is cached; a dropped message was the cached value |
| EventCache.SubscribeKeepsCoherence | fdbus/CFdbSession.cpp:339-411 | a request, granted or refused as a whole, keeps followers up to date |
| EventCache.SendToSome | fdbus/CFdbBaseObject.cpp:1266-1293 | a new value sent to some keys keeps followers up to date if and only if it reaches all of them |
| EventCache.ReplaceCacheIff | fdbus/CFdbBaseObject.cpp:1122-1136 | replacing a cached value by hand keeps followers up to date if and only if nobody follows or the value stays the same |
| EventCache.SendKeepsCoherence | fdbus/CFdbBaseObject.cpp:1248-1264 | a broadcast to all keeps followers up to date |
| EventCache.EnterAdds | fdbus/CFdbSession.cpp:366-384 | entries come from a granted request or were there before |
| EventCache.EnterKeeps | fdbus/CFdbSession.cpp:366-384 | all items of a granted request are entered |
| EventObject.QueryMatchesSessionBroadcast | fdbus/CFdbBaseObject.cpp:1266-1293 | with one object class a per-session broadcast finds a match exactly for those sessions |
| EventObject.NoReflectFailsForGroups | fdbus/CFdbBaseObject.cpp:1248-1259 | an instance within one object class: an event is reflected to the group subscription of its sender |
| EventObject.NoReflectWorksForGreatest | fdbus/CEventSubscribeHandle.cpp:172-176 | an instance: the sender's id is the greatest of the other session and suppression is exact |
| EventObject.LeftIds | fdbus/CEventSubscribeHandle.cpp:168-176 | what a lookup can leave in the message are the greatest objects of its sessions |
| EventObject.ForwardIsSend | fdbus/CFdbBaseObject.cpp:1248-1264 | a broadcast delivers to every follower |
| EventObject.EventObject.Subscribe | fdbus/CFdbBaseObject.cpp:1048-1057 | groups and events go to their own tables |
| EventObject.EventObject.Unsubscribe | fdbus/CFdbBaseObject.cpp:1059-1067 | removes exactly the named subscriptions |
| EventObject.EventObject.UnsubscribeSession | fdbus/CFdbBaseObject.cpp:1069-1073 | removes exactly the session's subscriptions from both tables |
| EventObject.EventObject.UnsubscribeObject | fdbus/CFdbBaseObject.cpp:1075-1079 | removes exactly the object's subscriptions from both tables |
| EventObject.EventObject.BroadcastMsg | fdbus/CFdbBaseObject.cpp:1248-1259 | delivers to the event's, its group's and everything's subscribers |
| EventObject.EventObject.BroadcastGroups | fdbus/CFdbBaseObject.cpp:1251-1258 | the group lookups of a broadcast |
| EventObject.EventObject.Broadcast | fdbus/CFdbBaseObject.cpp:1261-1264 | a broadcast is a send to all unless it is an unforced repeat |
| EventObject.EventObject.DoPublish | fdbus/CFdbBaseObject.cpp:847-878 | a published event is forwarded, dropped or handed to the user |
| EventObject.EventObject.BroadcastToSession | fdbus/CFdbBaseObject.cpp:1266-1293 | unless the value is dropped, exactly the keys that the first matching of the three lookups serves are sent to, the reflected ones aside, and the cache is updated |
| EventObject.EventObject.SendInSession | fdbus/CFdbBaseObject.cpp:1272-1288 | the keys sent to, exactly, for each of the three lookups; each lookup works with the object id left by the one before, the greatest of the sender's class |
| EventObject.EventObject.SendInGroups | fdbus/CFdbBaseObject.cpp:1276-1287 | the same for the two group lookups |
| EventObject.EventObject.BroadcastCached | fdbus/CFdbBaseObject.cpp:686-738 | all requested cached values are delivered and nothing stale is |
| EventObject.EventObject.SendAllCached | fdbus/CFdbBaseObject.cpp:700-722 | every cached topic of an event is delivered |
| EventObject.EventObject.SendCachedFor | fdbus/CFdbBaseObject.cpp:692-736 | the values that one item asks for are delivered |
| EventObject.EventObject.DoSubscribeReq | fdbus/CFdbSession.cpp:339-411 | a request is answered as a whole: its items are entered and get their cached values, or are all removed |
| EventObject.EventObject.EnterItems | fdbus/CFdbSession.cpp:358-391 | the tables after all items of a request |
| EventObject.EventObject.GetSubscribeTable | fdbus/CFdbBaseObject.cpp:1331-1340 | the sessions that listen in any of the three ways |
| SubscribeTable.PrunedTablesAreCanonical | fdbus/CEventSubscribeHandle.cpp:37-141 | pruned tables with the same subscriptions are equal |
| SubscribeTable.EventSubscribeHandle.Subscribe | fdbus/CEventSubscribeHandle.cpp:23-35 | updates the flat map at one key |
| SubscribeTable.EventSubscribeHandle.Unsubscribe | fdbus/CEventSubscribeHandle.cpp:37-83 | removes exactly the named keys and every inner map that becomes empty |
| SubscribeTable.EventSubscribeHandle.UnsubscribeSession | fdbus/CEventSubscribeHandle.cpp:85-106 | removes exactly the session's keys |
| SubscribeTable.EventSubscribeHandle.UnsubscribeObject | fdbus/CEventSubscribeHandle.cpp:108-141 | removes exactly the object's keys |
| SubscribeTable.EventSubscribeHandle.SendToSessions | fdbus/CEventSubscribeHandle.cpp:168-205 | the same over all sessions of one event |
| SubscribeTable.EventSubscribeHandle.SendToSession | fdbus/CEventSubscribeHandle.cpp:172-202 | the same over the objects of one session, in ascending order |
| SubscribeTable.EventSubscribeHandle.SendToObject | fdbus/CEventSubscribeHandle.cpp:180-200 | the same for one object: exact topic, then wildcard |
| SubscribeTable.EventSubscribeHandle.BroadcastTo | fdbus/CEventSubscribeHandle.cpp:211-255 | sends to exactly the matching objects of the message's class in one session and leaves the greatest of them in the message |
| SubscribeTable.EventSubscribeHandle.SendToPeers | fdbus/CEventSubscribeHandle.cpp:225-250 | the walk over the objects of that session |
| SubscribeTable.EventSubscribeHandle.GetSubscribeTable | fdbus/CEventSubscribeHandle.cpp:324-371 | adds exactly the sessions with a matching subscription |
| EventCode.MakeGroup | public/fdbus/common_defs.h:184-190 | the group code of an event; it stands for everything only in the group of all groups |
| EventCode.Merge | public/fdbus/common_defs.h:192-195 | keeps the group and takes the number |
| Framing.FramesComeBack | fdbus/CFdbMessage.cpp:595-647 | a stream of framed messages means exactly those messages with nothing left over |
| Framing.DecodeInPieces | fdbus/CFdbSession.cpp:255-296 | decoding can stop anywhere and go on with the rest |
| Framing.RestWaits | fdbus/CFdbSession.cpp:270-290 | what is left over is an incomplete frame |
| Framing.PayloadsHaveTheirSize | fdbus/CFdbMessage.cpp:132-151 | every delivered payload has the size that its head gives |
| Framing.PayloadInsideIff | fdbus/CBaseSession.cpp:72-88 | the payload a head announces lies inside its frame if and only if head and payload are not longer than the frame, and only then is something delivered |
| Framing.PayloadBeyondFrame | fdbus/CFdbMessage.cpp:138-138 | an instance: a frame that ends with its head, which announces one byte |
| Framing.StopsAtBadPrefix | fdbus/CBaseSession.cpp:43-70 | whatever follows a bad prefix is never looked at |
| Framing.ReceiveChunks | fdbus/CFdbSession.cpp:255-296 | chunked input delivers what the whole stream means |
| Framing.NextStable | fdbus/CFdbSession.cpp:270-290 | more bytes do not change the first frame |
| Framing.FrameParses | fdbus/CBaseSession.cpp:72-126 | a frame is parsed to its message |
| Framing.PrefixRoundTrip | public/fdbus/CFdbMessage.h:107-150 | a prefix is decoded to itself |
| Framing.OutMessage.BuildHeader | fdbus/CFdbMessage.cpp:595-647 | the payload size is filled in and the buffer holds the frame right in front of the untouched payload, unless the head is too long |
| Framing.OutMessage.constructor | fdbus/CFdbMessage.cpp:658-668 | the payload is copied behind room for prefix and head |
| Framing.ParsePrefix | fdbus/CBaseSession.cpp:43-70 | a prefix is refused exactly when its sizes are bad |
| Framing.Session.OnInputReady | fdbus/CFdbSession.cpp:255-296 | terminates with every complete frame delivered and says how many bytes are missing |
| Framing.Session.ProcessFrame | fdbus/CBaseSession.cpp:72-126 | takes one frame off and delivers head and payload |
| Framing.Session.Receive | fdbus/CFdbSession.cpp:255-296 | after any read deliveries and leftover mean the whole stream |
| Framing.BlockingSession.ReceiveData | fdbus/CFdbSession.cpp:212-248 | reads the bytes asked for or fails for good |
| Framing.BlockingSession.OnInput | fdbus/CFdbSession.cpp:298-325 | delivers exactly the next frame or fails |
| MessageHeader.HeaderRoundTrip | utils/CFdbIfMessageHeader.h:129-178 | a head with fields in range is decoded to itself |
| MessageHeader.HeaderParts | utils/CFdbIfMessageHeader.h:129-178 | its fixed and optional parts are read back |
| MessageHeader.OptionsTellWhatIsThere | utils/CFdbIfMessageHeader.h:110-127 | the options byte says which optional fields follow |
| Codec.StringRoundTripIff | fdbus/CFdbSimpleSerializer.cpp:169-192 | a string comes back if and only if it has no NUL and fewer than 65535 bytes |
| Codec.LongStringIsLost | fdbus/CFdbSimpleSerializer.cpp:84-89 | an instance: a string of 65535 bytes is read back empty |
| Codec.ItemRoundTrip | fdbus/CFdbSimpleSerializer.cpp:84-235 | one item is read back as itself |
| Codec.LittleEndianRoundTrip | fdbus/CFdbSimpleSerializer.cpp:123-141 | an integer in range is its little-endian bytes |
| Serializer.SimpleSerializer.AddMemory | fdbus/CFdbSimpleSerializer.cpp:91-121 | makes room, keeping the written bytes across scratch, heap and growth |
| Serializer.SimpleSerializer.AddBasicType | fdbus/CFdbSimpleSerializer.cpp:123-141 | appends the little-endian form of an integer in memory |
| Serializer.SimpleSerializer.AddRawData | fdbus/CFdbSimpleSerializer.cpp:143-151 | appends a block within capacity |
| Serializer.SimpleSerializer.AddString | fdbus/CFdbSimpleSerializer.cpp:84-89 | appends length and terminated characters |
| Serializer.SimpleSerializer.AddInt | fdbus/CFdbSimpleSerializer.cpp:123-141 | appends the same bytes on either kind of host |
| Serializer.SimpleDeserializer.RetrieveBasicData | fdbus/CFdbSimpleSerializer.cpp:206-223 | rebuilds the integer as this host keeps it |
| Serializer.SimpleDeserializer.GetInt | fdbus/CFdbSimpleSerializer.cpp:206-223 | reads the integer the bytes stand for, or reports an error without moving |
| Serializer.SimpleDeserializer.GetString | fdbus/CFdbSimpleSerializer.cpp:169-192 | reads the string or reports an error |
| Serializer.SimpleDeserializer.GetRawData | fdbus/CFdbSimpleSerializer.cpp:225-235 | reads the block or fails without moving |
| PendingTable.LostAfterWrapAround | public/fdbus/CEntityContainer.h:35-53 | an instance: a run in which a request waits until its serial number comes round again and the later request is not entered |
| PendingTable.OnlyJustifiedEnds | fdbus/CBaseSession.cpp:300-412 | a request ends only by its own serial number, a scan that finds it too old, or close |
| PendingTable.NoRequestOutlivesSixScans | fdbus/CFdbSession.cpp:535-553 | every entered request has ended after six more scans |
| PendingTable.LifeTimeCountsScans | fdbus/CFdbSession.cpp:535-553 | the lifetime of a waiting request counts the scans |
| PendingTable.ScanAges | fdbus/CFdbSession.cpp:535-553 | a scan makes each survivor exactly one scan older |
| PendingTable.StepKeepsInv | fdbus/CFdbSession.cpp:50-72 | every step keeps the account of requests; close leaves none waiting |
| PendingTable.TerminateKeepsAccount | fdbus/CBaseSession.cpp:330-340 | ending a request keeps every entered request accounted for exactly once |
| PendingTable.Session.SendMessageSync | fdbus/CBaseSession.cpp:279-298 | takes the next serial number and enters the request if it was sent |
| PendingTable.Session.DoResponse | fdbus/CBaseSession.cpp:351-412 | a matching response ends its request |
| PendingTable.Session.OnTimeout | fdbus/CFdbMessage.cpp:38-55 | a timeout ends its request |
| PendingTable.Session.ScanLifeTime | fdbus/CFdbSession.cpp:535-553 | ages all and ends the ones that are too old |
| PendingTable.Session.Destroy | fdbus/CFdbSession.cpp:50-72 | ends everything that waits |
| DataPool.StepKeeps | datapool/CDataPool.cpp:427-527 | every step keeps both |
| DataPool.CreatedIsMatched | datapool/CDataPool.cpp:713-752 | whatever a table serves, some listed topic passes both matching tests |
| DataPool.SubscribeKeeps | datapool/CDataPool.cpp:427-446 | a subscription adds exactly its listener |
| DataPool.TopicUpdateKeeps | datapool/CDpClient.cpp:127-137 | a new topic list moves subscriptions without missing or losing any |
| DataPool.UnregisterKeeps | datapool/CDataPool.cpp:167-194 | a client that is listed once leaves without a listener lost |
| DataPool.MovedConserves | datapool/CDataPool.cpp:490-522 | moving neither loses nor duplicates a listener |
| DataPool.ListMovesWhatItServes | datapool/CDpClient.cpp:127-137 | walking over the list moves exactly what the new table serves |
| DataPool.DataPool.TopicCreated | datapool/CDataPool.cpp:713-752 | whether some topic of the table serves the request |
| DataPool.DataPool.ClientSubscribe | datapool/CDpClient.cpp:103-124 | a client takes over listeners exactly if it serves the topic |
| DataPool.DataPool.Subscribe | datapool/CDataPool.cpp:427-446 | the first serving client gets the listener, else it waits |
| DataPool.DataPool.OnTopicCreated | datapool/CDataPool.cpp:490-524 | exactly the matching pending subscriptions that the client serves move to it |
| DataPool.DataPool.MoveTopics | datapool/CDataPool.cpp:503-518 | the same for one pending id |
| DataPool.DataPool.ToTopicInfo | public/fdbus/dp_common.h:112-118 | the table of a topic list |
| DataPool.DataPool.UpdateTopicList | datapool/CDpClient.cpp:127-137 | replaces the table and moves exactly what it serves |
| DataPool.DataPool.Unregister | datapool/CDataPool.cpp:167-194 | everything the client served is subscribed again |
| DataPool.DataPool.RemoveClient | datapool/CDataPool.cpp:169-176 | removes the first occurrence of the client |
| LogCache.WindowUnique | log/CFdbLogCache.cpp:85-114 | the content of the cache is determined by the history |
| LogCache.LongestByOneMore | log/CFdbLogCache.cpp:95-105 | a suffix is the longest that fits when one item more does not fit |
| LogCache.Cache.Push | log/CFdbLogCache.cpp:85-114 | ring mode keeps the window and the byte counter; stop mode never exceeds the limit |
| LogCache.Cache.MakeRoom | log/CFdbLogCache.cpp:95-105 | evicts the oldest items, none more than needed |
| LogCache.Cache.PopOne | log/CFdbLogCache.cpp:61-83 | drops the oldest item and its bytes |
| LogCache.Cache.RemoveAll | log/CFdbLogCache.cpp:44-54 | empties the cache |
| LogCache.Cache.Resize | log/CFdbLogCache.cpp:154-169 | keeps the longest suffix that fits the new limit |
| LogFiles.StoreStaysWithinStorage | log/CLogFileManager.cpp:334-409 | after a record all log bytes are below the storage size plus that record |
| LogFiles.RunStaysGood | log/CLogFileManager.cpp:452-464 | this holds after every record of every run |
| LogFiles.SmallLimitBreaksTheBound | log/CLogFileManager.cpp:149-160 | an instance: with a file limit of zero or less the total exceeds the bound |
| LogFiles.EvictFits | log/CLogFileManager.cpp:334-358 | eviction brings the closed files within the limit |
| LogFiles.EvictOldestFirst | log/CLogFileManager.cpp:334-358 | the oldest files go first, none more than the limit asks for |
| LogFiles.CloseKeepsGood | log/CLogFileManager.cpp:87-123 | closing a file keeps every tracked byte counted |
| LogFiles.SortedKeeps | log/CLogFileManager.cpp:243-245 | sorting after a scan orders the files by index and keeps them and their bytes |
| LogFiles.LogFileManager.constructor | log/CLogFileManager.cpp:54-80 | storing starts if and only if there is a path and the sizes, or their defaults, are accepted; then the files found are counted and tracked in order |
| LogFiles.LogFileManager.Stop | log/CLogFileManager.cpp:125-129 | the open file is closed and counted, and nothing is stored until the next start |
| LogFiles.LogFileManager.ScanDir | log/CLogFileManager.cpp:162-280 | counts all files found, tracks those with an index in order, and goes on with a larger index |
| LogFiles.LogFileManager.AddFile | log/CLogFileManager.cpp:250-280 | counts a file always and tracks it only with an index, keeping every tracked byte counted |
| LogFiles.LogFileManager.RemoveOldestLog | log/CLogFileManager.cpp:334-358 | evicts until the counter is within the limit |
| LogFiles.LogFileManager.CheckFileSize | log/CLogFileManager.cpp:372-409 | rotates a full file and opens the next |
| LogFiles.LogFileManager.StoreRecord | log/CLogFileManager.cpp:452-472 | the written bytes are one step of the run; success means that all were written |

## Left out

- Sockets, SSL, UDP, timers, threads and files: each outcome is a parameter of the step that needs it.
- UDP port numbers and their allocation: a second copy of the address allocation pattern.
- Tokens, credentials of hosts, and the security levels of sessions other than for subscribing.
- The query of all exportable services in the host server; the query of the whole service table in the name server.
- The cache-disabled branch of `updateEventCache`, whose code and comment disagree.
- A user's own override of the subscription check, which could answer the items of one request differently.
- Re-entrant calls from user callbacks while a handler runs.
- 32-bit overflow of serializer sizes and log counters; compressed log files.
- Readers of the simple wire format with a size of zero, which skip all bounds checks in the source; here they report an error.
- Framing.PayloadsHaveTheirSize: a head length or payload size beyond the end of a frame is treated like a head that cannot be parsed, while the source does not look at it; `PayloadInsideIff` says when that makes a difference.
- Framing.Session.ProcessFrame: ends the session on such a frame for the same reason.
- Log file names that are not a fixed-width index: the order of names is modelled as the order of indices.
- HostServer.HostServer.OnLocalHostReady: the addresses of the name server itself and the host-online notice, which repeats the table for local name servers, are not modelled.
- HostServer.HostServer.OnUnregisterLocalHost: the host-offline notice is not modelled.
- HostServer.HostServer.OnOffline: the host-offline notice and the heartbeat timer are not modelled.
- HostServer.HostServer.OnUpstreamAck: the tokens in the acknowledgement are not modelled.
- NameServer.NameServer.OnRegisterService: connecting to a host server by its best local URL is not modelled.
- NameServer.NameServer.Rebind: the message that asks the service to bind the new address is not modelled.
- NameServer.NameServer.OnServiceOnlineReg: services of other hosts and forwarding to other name servers are not modelled.
- NameServer.NameServer.AllocateTcpAddresses: network lists of the security configuration are not modelled, and which interfaces get an offer is left open.
- NameServer.NameServer.CreateTcpAllocators: how interfaces are found is not modelled; the allocators they call for are a constant.
- NameServer.NameServer.Online: importing interfaces and connecting to configured host servers are not modelled.
- NameServer.NameServer.OnHostOnline: the messages that ask services to bind the new addresses are not modelled, and which interfaces get an offer is left open.
- NameServer.NameServer.ExtendEntry: the message that asks the service to bind the new addresses is not modelled, and which interfaces get an offer is left open.
- Framing.BlockingSession.ReceiveData: the limit on the number of reads for one frame is not modelled; a short read stands for a lost peer.
- HostNetwork.HeardIffRouted: says which addresses can be heard at all; in a given run a service that duplicates a local one is dropped on arrival, which `StoredUnlessLocal` states exactly.
- EventCache.EarlyAndLateSubscribersAgree: runs contain no broadcasts to a single session and no replacement of a followed cached value by another; `SendToSome` and `ReplaceCacheIff` give the exact conditions for those.
- DataPool.UnregisterKeeps: for a client listed once, since connecting can list a client again.
