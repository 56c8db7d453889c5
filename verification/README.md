# A verified model of the RustyLink daemon

RustyLink is a VPN daemon. This project models the parts of it that keep state and survive failures, and proves what they
promise. Each module follows one component:

- **The tunnel lifecycle.** `VpnStates` has the pure tunnel state and its projection to clients, `Reconnect` the retry
  controller, `DaemonCore` the lock-protected state with its critical sections in place, `TunnelLifecycle` every interleaving
  of those sections (RPCs, connect loops, configuration and login changes), `Supervisor` the event loop of a live session, and
  `ConnectLoop` one connect loop as it runs, with the log of its attempts and sessions.
- **The FeiLian TCP transport.** `FeilianFrames` has the framing and the reader, `FeilianSender` the sender that redials.
- **Bring-up and tear-down.** `Routes` has the route transaction on a table whose operations fail in any pattern,
  `TunnelSession` the stages of a session and the order in which they are given back.
- **DNS.** `Domains` has normalisation and what the string tests mean for labels, `DnsPipeline` the tables, the synthesised
  answers and the choice of a path, `TunHijack` the TUN device and the absence of query loops, `DnsForwarder` the parallel
  query.
- **Login and negotiation.** `LatencyRank` and `DotNegotiation` choose an access point, `Hkdf` derives the signing key,
  `AuthMachine` is the auth coordinator with its runs and restarts.

Code that updates fields is a class here, each method proved against a function of the old state; interleavings are transition
systems over those functions. What the environment decides (failures, timing, answers of servers, completion orders) is a
parameter or a nondeterministic choice, so a theorem holds for all of it.

Where the code does not do what one might expect, the project says exactly when:

- The attempt count that clients are shown never passes 1, although the comment at `crates/core/src/state/vpn.rs:137` calls it
  incrementing: a new attempt enters `Configuring`, which carries no count (`RetryCountIsLost`, `ShownAttemptsStayLow`).
- A connect that is admitted between a loop's `mark_failed` and its next write leaves two live loops; with client calls one
  at a time this is the only way (`ConnectIsSafeIff`, `WindowIsReachable`).
- The bypass is torn down over routes of the session exactly when their handle was lost (`Stop`). In the daemon, which stops
  each session once, this happens in a failed start: `apply` fails, its rollback is refused a route, and the cleanup takes the
  bypass down over it. `Start` has the exact condition, `FailedStartLeavesRoute` and `FailedStart` a run; a session that is
  stopped again after a refused removal does the same (`StopAgainAfterRefusal`).
- A logout is not always final. It is exactly when, at its moment, no device poll was in flight, no save of a session with
  cookies was in flight, and the credentials file with such a session was deleted (`LogoutIsFinalIff`): a poll that ends later
  authenticates the machine again, a save that lands later does so after the next start. A poll approved before the logout
  leaves an authenticated machine without cookies, one approved after it brings its own (`LogoutLosesAgainstDeviceLogin`).
- A failed OAuth callback loses the pending flow while the machine still waits for it (`OauthFlowIsLostIff`).
- A panicking latency probe hides the results of all probes that end after it (`PanicHidesLaterProbes`). The latencies are
  still right exactly when every reachable dot was heard of before (`SlotsAreMeasuredIff`), and the order exactly when what was
  heard compares every two dots as the truth does (`SameOrderIff`).
- `normalize_domain` is not idempotent (`NormalizeIsNotIdempotent`), and it is for exactly the values whose trimmed text has
  nothing more to trim (`NormalizeIsIdempotentIff`). Since a question is normalised twice before it meets the split domains and
  a domain once, an accepted domain matches its own name exactly when it is in normal form (`OwnDomainIsRoutedIff`); accepted
  domains that are not exist (`QuotedDomainIsLost`).
- The tables that are scanned come out of hash maps in no fixed order, and an answer depends on it unless the matching entries
  of the layer that decides agree (`LookupIsOrderFreeIff`).
- Queries can be hijacked over and over in a split tunnel without an outbound interface, because directed queries to a system
  server that is routed into the TUN come back: they never loop exactly when that cannot happen (`NeverLoopsIff`, and
  `SplitSessionNeverLoopsIff` for the routes a session plans).
- Beyond 255 blocks the HKDF loop goes on with a wrapped counter where the standard allows no output (`HkdfSha256`).

## Model

| member | source | states |
|---|---|---|
| `VpnStates.TunnelTellsStatesApart` | crates/daemon/src/state.rs:582-645 | equal messages to clients come from states of the same kind with the same mode, tunnel data, count and error |
| `VpnStates.TransitionShapes` | crates/core/src/state/vpn.rs:116-176 | the kind, request, tunnel data, error text and count that each transition leaves, from every state |
| `VpnStates.TunnelShows` | crates/daemon/src/state.rs:582-645 | what clients see of each state: the phase, the mode and transport of its request, and the data, count or error it holds |
| `Reconnect.ReconnectController.Record` | crates/tunnel/src/reconnect.rs:62-81 | one saturating count per event and the decision for that count |
| `Reconnect.AndroidSchedule` | crates/tunnel/src/reconnect.rs:35-95 | the daemon's policy retry by retry: 2, 4, 8, 16, 32, 60, 60, 60 seconds, the node switched from the third on or at a kick, the ninth event ends it |
| `Reconnect.DelayMonotone` | crates/tunnel/src/reconnect.rs:87-95 | for every policy the back-off never shortens and never passes its cap |
| `DaemonCore.DaemonInner.Connect` | crates/daemon/src/daemon.rs:275-321 | the whole new locked state of a connect, its refusals and its reply |
| `DaemonCore.DaemonInner.DisconnectBegin` | crates/daemon/src/daemon.rs:325-335 | first section of a disconnect: state, broadcast, the token cancelled and the handle taken |
| `DaemonCore.DaemonInner.DisconnectEnd` | crates/daemon/src/daemon.rs:339-350 | second section of a disconnect; the reply is the projection of the machine |
| `DaemonCore.DaemonInner.ReconnectBegin` | crates/daemon/src/daemon.rs:358-391 | nothing changes unless the outbound changed under an active request; then that request, token and handle are taken |
| `DaemonCore.DaemonInner.VpnTransition` | crates/daemon/src/daemon.rs:769-776 | a transition of an existing machine is assigned and broadcast together; the machine it leaves and the message sent, field by field, for each move |
| `DaemonCore.DaemonInner.MarkFailed` | crates/daemon/src/daemon.rs:758-767 | the machine fails with the error text it was given and its count kept, the active outbound is dropped |
| `DaemonCore.DaemonInner.MarkDisconnected` | crates/daemon/src/daemon.rs:748-756 | the machine is disconnected, the active outbound is dropped |
| `TunnelLifecycle.WatchAlwaysCurrent` | crates/daemon/src/daemon.rs:303-350 | in every run, with no side condition, the last value sent to watchers is the projection of the machine |
| `TunnelLifecycle.StepKeepsOwnership` | crates/daemon/src/daemon.rs:275-442 | one client call at a time and no connect in the failed window: each step keeps handle, token and request those of the only live loop |
| `TunnelLifecycle.OneLoopPerRun` | crates/daemon/src/daemon.rs:275-442 | in every such run there is at most one live loop and it owns handle, token and request |
| `TunnelLifecycle.AnnouncedSessionIsShown` | crates/daemon/src/daemon.rs:637-655 | after a session is announced the machine is `Connected` with the request of its loop and that session's data, and watchers see both |
| `TunnelLifecycle.LiveSessionsAreConnected` | crates/daemon/src/daemon.rs:446-569 | in every disciplined run, while a loop supervises or stops a session the machine is `Connected` with the request of that loop, or `Disconnecting` |
| `TunnelLifecycle.AttemptWrites` | crates/daemon/src/daemon.rs:402-450 | the machine after an attempt has begun and after it has failed, with the request of its loop and the error text |
| `TunnelLifecycle.EventDecides` | crates/daemon/src/daemon.rs:411-439 | the outcome of an attempt is decided as its own event: a kick as a kick, a failed attempt as a transport failure |
| `TunnelLifecycle.OutboundFollowsAttempt` | crates/daemon/src/daemon.rs:758-767 | the active interface is the configured one once a session starts and none once an attempt has failed |
| `TunnelLifecycle.ChangeThenReconnect` | crates/daemon/src/daemon.rs:358-391 | after the interface is set, a reconnect begins exactly when it is not the active one and a tunnel is wanted |
| `TunnelLifecycle.LoginThenConnect` | crates/daemon/src/daemon.rs:275-321 | after a login or logout, a connect is admitted exactly when there is a login, a client on the first connect, and no tunnel in progress |
| `TunnelLifecycle.BackOffThenRetry` | crates/daemon/src/daemon.rs:725-746 | after its back-off a loop tries again with its count, unless its token is cancelled |
| `TunnelLifecycle.DecisionWrites` | crates/daemon/src/daemon.rs:725-746 | after a decision the machine is `Reconnecting`, or `Failed` with the fixed text when the loop gives up |
| `TunnelLifecycle.EndWrites` | crates/daemon/src/daemon.rs:402-442 | a loop that ends because its token is cancelled leaves `Disconnected` |
| `TunnelLifecycle.DisconnectLeavesNothing` | crates/daemon/src/daemon.rs:336-350 | a completed disconnect leaves no live loop, no session, no handle and a `Disconnected` machine |
| `TunnelLifecycle.ConnectIsSafeIff` | crates/core/src/state/vpn.rs:84-87 | a connect keeps at most one live loop if and only if it is not admitted while a loop is in its failed window |
| `TunnelLifecycle.WindowIsReachable` | crates/daemon/src/daemon.rs:429-436 | that window is reached from the initial state, and a connect in it gives two live loops |
| `TunnelLifecycle.ShownAttemptsStayLow` | crates/core/src/state/vpn.rs:137-145 | in every disciplined run the count that clients see is at most 1 |
| `TunnelLifecycle.CancelledLoopCanFinish` | crates/daemon/src/daemon.rs:402-442 | in every state a loop whose token is cancelled has a next step of its own and can end within five |
| `TunnelLifecycle.CancelledLoopEnds` | crates/daemon/src/daemon.rs:725-746 | in every interleaving such a loop takes at most eleven own steps, and is done after as many as its rank says: it cannot go on retrying |
| `TunnelLifecycle.WaitedLoopEnds` | crates/daemon/src/daemon.rs:326-338 | the loop a disconnect waits for is such a loop, so the wait ends once its awaited calls do |
| `Supervisor.Run` | crates/daemon/src/supervisor.rs:82-180 | over the fields of the events: the session ends at the first one that is a cancel, a device stop, a kick, a liveness poll without a reply after 15 or with a last reply older than 30 seconds, or a changed network; with that event's outcome, and one keep-alive for every report up to it |
| `Supervisor.LivenessEndsIff` | crates/daemon/src/supervisor.rs:70-76 | exactly when a liveness poll ends a session, in seconds, and with what |
| `Supervisor.NetworkEndsIff` | crates/daemon/src/supervisor.rs:139-166 | exactly when a network poll does: the pinned interface is not known to be there, or the unpinned snapshot is known and differs |
| `Supervisor.OtherEnds` | crates/daemon/src/supervisor.rs:82-180 | cancel and device stop always end it, a report exactly when kicked, each with its own outcome |
| `ConnectLoop.EverySessionIsBracketed` | crates/daemon/src/daemon.rs:446-569 | in an accepted log each session is announced once, reports connected at least once, stops once and reports disconnected once, with nothing in between |
| `ConnectLoop.ConnectOnce` | crates/daemon/src/daemon.rs:446-569 | an attempt returns its session's outcome or its own error, extends the log by one failed attempt or one whole session, and after a session the machine holds and shows that session's data |
| `ConnectLoop.AfterAttempt` | crates/daemon/src/daemon.rs:405-441 | after an attempt: the decision for its event, whether the loop goes on, the count, and the state and error text left behind if it does not |
| `ConnectLoop.HandleDecision` | crates/daemon/src/daemon.rs:725-746 | the loop goes on unless the decision is to stop or the token cuts the sleep, and what each end leaves, the error text included |
| `ConnectLoop.TurnCounts` | crates/tunnel/src/reconnect.rs:62-85 | the controller's count is the number of attempts ended since, and including, the last healthy session |
| `ConnectLoop.LoopsAgree` | crates/daemon/src/daemon.rs:411-439 | the loop on its own and the loop in the interleavings have the same count after an attempt and end at the same decision |
| `ConnectLoop.SinceHealthyCounts` | crates/daemon/src/daemon.rs:411-439 | that number in closed form: the distance to the last healthy session or to the start |
| `ConnectLoop.UnhealthyStretchIsShort` | crates/daemon/src/daemon.rs:402-442 | any stretch of attempts without a healthy session has at most one more than the policy's maximum |
| `ConnectLoop.RunConnectLoop` | crates/daemon/src/daemon.rs:402-442 | the loop ends if healthy sessions are finite, makes exactly the attempts the count allows, brackets every session and leaves `Disconnected` or `Failed` as its end calls for |
| `FeilianFrames.ByteStream.ReadExact` | crates/tunnel/src/transport.rs:230-247 | exactly the next bytes of the stream over any chunking, or nothing when there are too few |
| `FeilianFrames.ReadFrames` | crates/tunnel/src/transport.rs:227-255 | the datagrams handed on are those of the bytes, whatever the chunks, up to the point where the consumer is gone |
| `FeilianFrames.RoundTrip` | crates/tunnel/src/transport.rs:131-180 | decoding the encoding of any list of sendable datagrams gives the list |
| `FeilianFrames.HeaderBytes` | crates/tunnel/src/transport.rs:166-180 | the four bytes of a header, lowest first, and the value they stand for |
| `FeilianFrames.SendableIff` | crates/tunnel/src/transport.rs:129-138 | a datagram can be sent exactly when it has one to 65535 bytes |
| `FeilianFrames.ReadingEnds` | crates/tunnel/src/transport.rs:230-247 | nothing more is delivered after a header that is cut, zero, too large or followed by too few bytes; any other header gives its frame and the reading goes on |
| `FeilianFrames.FramesDeliver` | crates/tunnel/src/transport.rs:230-254 | whole frames followed by a truncated one deliver exactly the whole frames |
| `FeilianFrames.TruncationDeliversWholeFrames` | crates/tunnel/src/transport.rs:230-254 | from every truncation of the stream exactly the frames wholly contained in it are delivered |
| `FeilianSender.FeilianTcpSend.SendTo` | crates/tunnel/src/transport.rs:129-193 | the whole effect of one send on the writer and on every connection's bytes, and its outcome |
| `FeilianSender.SendOutcome` | crates/tunnel/src/transport.rs:129-193 | which connection a send uses, when it dials, and what each failure leaves |
| `FeilianSender.SendSucceedsIff` | crates/tunnel/src/transport.rs:129-193 | exactly when a send of a good size over an open connection returns Ok: the network takes all octets |
| `FeilianSender.WrittenIsFrameOrTruncation` | crates/tunnel/src/transport.rs:166-193 | a send writes a whole frame or a proper front of one |
| `FeilianSender.PeerRecoversAcked` | crates/tunnel/src/transport.rs:129-193 | over any run of sends a peer recovers exactly the datagrams whose send returned Ok on its connection, in order |
| `FeilianSender.BrokenConnectionDeliversPrefix` | crates/tunnel/src/transport.rs:129-193 | if a connection breaks after any byte the peer still gets a prefix of them |
| `FeilianSender.AckedReachesDestination` | crates/tunnel/src/transport.rs:140-165 | an acknowledged datagram went to a connection dialled for its own destination |
| `Routes.SameRouteIff` | crates/tunnel/src/route.rs:183-193 | two networks give the same OS route exactly when they differ in host bits only |
| `Routes.SystemRouteIsNetwork` | crates/tunnel/src/route.rs:183-193 | the OS route of a network: the same family, prefix and interface, and the address with its host bits cleared |
| `Routes.NewRoutesExact` | crates/tunnel/src/route.rs:108-135 | the routes an apply records are those planned and not in the table, each once |
| `Routes.RemoveUndoesApply` | crates/tunnel/src/route.rs:99-155 | removing what an apply recorded gives the table it found |
| `Routes.Apply` | crates/tunnel/src/route.rs:99-138 | exactly when it succeeds; success adds the planned routes and records exactly the new ones; failure leaves exactly the routes whose rollback was refused |
| `Routes.Rollback` | crates/tunnel/src/route.rs:195-205 | reverse order, failures skipped: what stays is exactly what was refused |
| `Routes.Remove` | crates/tunnel/src/route.rs:141-155 | reverse order up to the first failure; on success exactly the recorded routes are gone, and no pre-existing route ever is |
| `TunnelSession.Session.RouteSystemDns` | crates/tunnel/src/session.rs:283-305 | the host routes of the system's DNS servers join a split tunnel's plan; every configured network stays in it |
| `TunnelSession.PlannedNetworksExact` | crates/tunnel/src/session.rs:283-305 | a network is planned exactly when it is configured, or the tunnel is split with the option on and it is the /32 or /128 network of a DNS server of a carried family |
| `TunnelSession.PlannedRoutesExact` | crates/tunnel/src/session.rs:283-305 | the planned routes are exactly those networks' routes on the tunnel's interface |
| `TunnelSession.DnsHostRoutesExact` | crates/tunnel/src/route.rs:86-97 | a host route for each DNS server the tunnel can carry and for no other |
| `TunnelSession.Session.StartInner` | crates/tunnel/src/session.rs:331-457 | success gives the planned table with the route of every configured network, and every handle; a failure before the routes leaves the table alone; the bypass is attempted first |
| `TunnelSession.Session.Stop` | crates/tunnel/src/session.rs:459-486 | the fixed order, exactly when it succeeds, what is kept when a route is refused, and that the bypass comes down over routes exactly when their handle was lost |
| `TunnelSession.TearDownOrderMeans` | crates/tunnel/src/session.rs:459-486 | no route is deleted after the bypass is torn down, and the other parts go in their order, whatever else happens |
| `TunnelSession.Session.Start` | crates/tunnel/src/session.rs:267-278 | a successful start has the route of every configured network in the table; one that fails at any stage restores the table and empties every handle if no deletion is refused; it tears the bypass down over routes exactly when the bypass was set up and the failed apply left some |
| `TunnelSession.FailedStartLeavesRoute` | crates/tunnel/src/session.rs:268-275 | refusals under which a start leaves a route behind with its bypass set up |
| `TunnelSession.FailedStart` | crates/tunnel/src/session.rs:268-275 | that run: the cleanup tears the bypass down over the route |
| `TunnelSession.Lifetime` | crates/tunnel/src/session.rs:267-486 | a start and any number of stops: bypass before the first route, restored table, no pre-existing route lost, bypass torn down only over no route unless a deletion was refused |
| `TunnelSession.StopAgainAfterRefusal` | crates/tunnel/src/session.rs:471-480 | the second of two stops tears the bypass down over routes exactly when the first was refused a request of its removal |
| `TunnelSession.StopTearDownClean` | crates/tunnel/src/session.rs:471-480 | a stop that finds the routes gone, or some deletion refused before, keeps tear-downs clean |
| `Domains.NormalFormIsFixpoint` | crates/dns/src/config.rs:217-226 | exactly the names that normalisation leaves alone |
| `Domains.NormalizeIsIdempotentIff` | crates/dns/src/config.rs:217-226 | normalising twice is normalising once exactly when the trimmed text begins with no star and neither begins nor ends with a space, a quote or a dot |
| `Domains.NormalizeIsNotIdempotent` | crates/dns/src/config.rs:217-226 | inputs on which the second pass changes the result: any normal name in double quotes inside single quotes |
| `Domains.CaseDoesNotMatter` | crates/dns/src/config.rs:217-226 | two spellings that differ in the case of letters only normalise alike |
| `Domains.NormalizeUnwraps` | crates/dns/src/config.rs:217-226 | white space, either quote or dots around a normal name are taken off |
| `Domains.NormalizeUnstars` | crates/dns/src/config.rs:217-226 | so is a star with its dot in front |
| `Domains.OwnNameMatchesIff` | crates/dns/src/config.rs:205-226 | an accepted wildcard-free domain matches its own name, with or without the root's dot and normalised as a question is, exactly when it is in normal form |
| `Domains.NameMatchesIsLabelSuffix` | crates/dns/src/config.rs:48-61 | the string test of the tables holds exactly when the pattern's labels are the last labels of the name |
| `Domains.SplitPairIsLabelSuffix` | crates/dns/src/config.rs:109-123 | so does the pair of compiled wildcards of a split domain |
| `Domains.SubdomainNormalizes` | crates/dns/src/config.rs:217-226 | a prefix put before a normal name never changes the name's own part |
| `DnsPipeline.AcceptDomains` | crates/dns/src/config.rs:109-114 | the split domains are exactly the accepted values of the list, normalised |
| `DnsPipeline.MergeEntries` | crates/dns/src/config.rs:125-130 | the exact v4 table has a domain exactly when an entry gives it, with all its values in order |
| `DnsPipeline.CollectEntries` | crates/dns/src/config.rs:133-134 | the exact v6 table has a domain exactly when an entry gives it, with the values of the last one |
| `DnsPipeline.NormalizedEntriesExact` | crates/dns/src/config.rs:287-294 | exactly the named entries are kept, under their normalised names |
| `DnsPipeline.FromVpnConn` | crates/dns/src/config.rs:99-153 | the whole configuration: split domains, both exact tables, both scanned tables |
| `DnsPipeline.FindIsFirstHit` | crates/dns/src/config.rs:48-61 | a table search gives the values of the first entry whose labels end the name, and fails exactly when there is none |
| `DnsPipeline.LookupPrecedence` | crates/dns/src/config.rs:48-61 | lookup succeeds exactly when a layer matches, exact before wildcard before suffix |
| `DnsPipeline.LookupIsOrderFreeIff` | crates/dns/src/config.rs:133-142 | the answer is the same for every order in which the scanned tables come out of their maps exactly when the exact table decides or the matching entries of the deciding layer agree |
| `DnsPipeline.SplitIsLabelSuffix` | crates/dns/src/config.rs:205-210 | a name is split-routed exactly when its labels end in a split domain |
| `DnsPipeline.SplitCoversSubdomains` | crates/dns/src/config.rs:205-210 | split routing is closed under subdomains, wildcards or not |
| `DnsPipeline.AnsweredAMeansAnsweredAAAA` | crates/dns/src/synthesis.rs:22-67 | when an A query is answered locally so is the AAAA query, with the v6 records or with none |
| `DnsPipeline.AnsweredAIff` | crates/dns/src/synthesis.rs:22-50 | an A query is answered locally exactly when its name is in the tables with a value that is an address |
| `DnsPipeline.AnswerOfA` | crates/dns/src/synthesis.rs:30-80 | that answer repeats the query and has one record for each address, name and lifetime as promised |
| `DnsPipeline.AnsweredAAAAIff` | crates/dns/src/synthesis.rs:51-69 | an AAAA query is answered locally exactly when its name is in the tables of either family |
| `DnsPipeline.AnswerOfAAAA` | crates/dns/src/synthesis.rs:51-80 | with the v6 addresses of the name, of which a v4-only name has none |
| `DnsPipeline.OthersAreForwarded` | crates/dns/src/synthesis.rs:22-67 | queries of other types, without a question or that are no message are never answered locally |
| `DnsPipeline.AddressesInOrder` | crates/dns/src/synthesis.rs:30-67 | every table value that is an address gives its own record, in order |
| `DnsPipeline.PathsByMode` | crates/dns/src/resolver.rs:70-97 | a full tunnel never takes the directed path; a split tunnel takes the routed one exactly for matching names |
| `DnsPipeline.RoutedIff` | crates/dns/src/resolver.rs:70-97 | by the text of the question: routed exactly in a full tunnel or when the labels of the name end in a split domain |
| `DnsPipeline.OwnDomainIsRoutedIff` | crates/dns/src/synthesis.rs:95-101 | in a split tunnel with one domain, the fully qualified query for that domain is routed exactly when the domain is in normal form |
| `DnsPipeline.QuotedDomainIsLost` | crates/dns/src/config.rs:274-285 | accepted domains outside normal form |
| `TunHijack.BuiltResolverIsSound` | crates/dns/src/resolver.rs:39-66 | a resolver exists exactly when a server is configured, its servers are the configured ones at port 53, and its exempt addresses are exactly theirs |
| `TunHijack.VpnTun.Recv` | crates/tunnel/src/dns.rs:237-274 | one call takes the packets up to the first that is not hijacked, starts a resolution for each other one and loses none; a head packet that is not UDP, not for port 53 or for an exempt address is the one returned and starts nothing |
| `TunHijack.HijackedIff` | crates/tunnel/src/dns.rs:290-322 | a packet is hijacked exactly when there is a resolver and it is a UDP packet for port 53 of an address that is not exempt |
| `TunHijack.FlowIs` | crates/tunnel/src/dns.rs:290-322 | the query then has the packet's addresses, ports and payload |
| `TunHijack.EachPacketHasOneFate` | crates/tunnel/src/dns.rs:237-274 | every packet is handed on, reported malformed or turned into one resolution, all in order |
| `TunHijack.NoQueryLoop` | crates/tunnel/src/dns.rs:248-252 | if no directed query can be hijacked: in every interleaving, with the local DNS server, only programs' packets are hijacked, each once, and resolutions send at most one datagram to each server per packet or served query |
| `TunHijack.NeverLoopsIff` | crates/outbound/src/context.rs:91-109 | no run hijacks more than programs asked exactly in a full tunnel, or when every system server whose datagrams enter the TUN is exempt |
| `TunHijack.SplitSessionNeverLoopsIff` | crates/tunnel/src/session.rs:283-305 | for the routes a session plans: a split tunnel without an outbound interface never loops exactly when every system server it carries is a VPN server |
| `TunHijack.CarriedIff` | crates/tunnel/src/route.rs:183-193 | an address is carried into the TUN exactly when it is in the range that a planned route leads to |
| `TunHijack.WithoutExemptionQueriesLoop` | crates/dns/src/resolver.rs:27-29 | were a server not exempt, one packet could be hijacked any number of times |
| `DnsForwarder.FirstSuccessIsFirst` | crates/dns/src/forwarder.rs:104-110 | the chosen reply is a success before which only failures arrived, and there is none exactly when all failed |
| `DnsForwarder.LaterArrivalsDoNotMatter` | crates/dns/src/forwarder.rs:104-110 | what arrives after the first success changes nothing |
| `DnsForwarder.CompleteArrivals` | crates/dns/src/forwarder.rs:104-110 | over all arrival orders there is a reply exactly when some server replied |
| `DnsForwarder.Channel.Send` | crates/dns/src/forwarder.rs:89-99 | a send needs room in the bounded channel, which every task is proved to find |
| `DnsForwarder.ParallelQuery` | crates/dns/src/forwarder.rs:75-110 | for every completion order and interleaving: Ok exactly when some server replied, the earliest success with several, the server's own result with one; it terminates and no task blocks |
| `LatencyRank.CollectIsMeasured` | crates/daemon/src/latency.rs:57-62 | whatever the completion order each dot gets its own latency |
| `LatencyRank.PanicHidesLaterProbes` | crates/daemon/src/latency.rs:58-62 | the loop ends at the first panic and the later results are lost |
| `LatencyRank.SlotsAreMeasuredIff` | crates/daemon/src/latency.rs:57-62 | with or without a panic, each dot has its own latency exactly when every reachable dot was heard of before the first panic |
| `LatencyRank.SameOrderIff` | crates/daemon/src/latency.rs:57-66 | the order comes out the same exactly when what was heard compares every two dots as their latencies do |
| `LatencyRank.RankingOrders` | crates/daemon/src/latency.rs:64-78 | reachable before unreachable, then faster before slower, then the given order |
| `LatencyRank.RankingIsUnique` | crates/daemon/src/latency.rs:64-66 | only one list is the ranking |
| `LatencyRank.RankingKeepsDots` | crates/daemon/src/latency.rs:64-66 | it holds the dots it was given |
| `LatencyRank.RankDots` | crates/daemon/src/latency.rs:42-67 | the result is the ranking by what was heard before the first panic, and by the latencies themselves for every order without one or with every reachable dot heard |
| `DotNegotiation.EndpointShape` | crates/api/src/client.rs:421-442 | an endpoint dials the node address over WireGuard; an automatic choice configures through the frontend host |
| `DotNegotiation.EndpointExact` | crates/api/src/client.rs:420-443 | exactly when an endpoint is built, and that it has the API at the API port and WireGuard at the VPN port, each at its own host |
| `DotNegotiation.ApiAddress` | crates/api/src/client.rs:663-700 | the API host in each case: the node address for a chosen dot with operator routing, else the first frontend that is named, else the node |
| `DotNegotiation.EndpointErrors` | crates/api/src/client.rs:420-443 | which error is given when none is built |
| `DotNegotiation.SuitsIff` | crates/core/src/vpn.rs:200-209 | the pin, the mode and the reconnect flags that a candidate must meet |
| `DotNegotiation.TriedExact` | crates/core/src/vpn.rs:218-224 | the dots that are asked: the first three of the candidates, ranked in the automatic case |
| `DotNegotiation.FastestIsTriedFirst` | crates/core/src/vpn.rs:218-224 | in the automatic case the fastest reachable candidate is asked first |
| `DotNegotiation.CandidatesAppend` | crates/core/src/vpn.rs:200-209 | the candidates are the suitable dots in listing order |
| `DotNegotiation.SearchIsDetermined` | crates/core/src/vpn.rs:224-276 | the declarative description of the search has one solution |
| `DotNegotiation.FirstSuccessWins` | crates/core/src/vpn.rs:238-252 | a request gives the configuration exactly when it is answered with data at a dot with an endpoint and all before it failed |
| `DotNegotiation.LastErrorWins` | crates/core/src/vpn.rs:254-272 | when every request fails all were made and the error is the last one's |
| `DotNegotiation.StopsAtOnce` | crates/core/src/vpn.rs:224-252 | a dot without an endpoint and an answer without data end the search there, each with its own error |
| `DotNegotiation.Search` | crates/core/src/vpn.rs:224-276 | requests in dot and attempt order, three each, stopping at a response or at a dot without an endpoint |
| `DotNegotiation.Negotiate` | crates/core/src/vpn.rs:183-277 | at most nine requests, each listing error, the returned dot meets pin, mode and reconnect, and its own API and VPN ports are those of the endpoint |
| `DotNegotiation.RankingKeepsCandidates` | crates/core/src/vpn.rs:218-222 | the latency ranking only rearranges the candidates |
| `Hkdf.BlocksAreStandard` | crates/api/src/signing.rs:314-326 | with an octet counter the first 255 blocks are T(1) to T(255) of section 2.3 of RFC 5869 |
| `Hkdf.HkdfSha256` | crates/api/src/signing.rs:307-329 | the first L octets of T(1), T(2), ... for every L the standard allows, and what happens beyond |
| `Hkdf.ShorterIsPrefix` | crates/api/src/signing.rs:314-328 | a shorter key is the front of a longer one |
| `AuthMachine.DeviceFlowIff` | crates/core/src/state/auth.rs:298-329 | a device login begins exactly when the first provider of that name gives a token, and polls with it |
| `AuthMachine.OauthFlowIs` | crates/core/src/state/auth.rs:249-277 | the flow that an OAuth login begins: the first provider of that name, its state, token and link |
| `AuthMachine.ActionsAnyCase` | crates/core/src/auth.rs:228-261 | the actions that mean a second factor or a link, in any case of letters |
| `AuthMachine.ChallengeFields` | crates/core/src/auth.rs:211-252 | what a challenge asks for and whom it shows |
| `AuthMachine.LastUpdateWins` | crates/api/src/client.rs:220-241 | a cookie has the value of its last update, and one that is not updated keeps its own (`OthersStay`) |
| `AuthMachine.CookieStore.Merge` | crates/api/src/client.rs:220-241 | the jar after a list of updates; a listener that is not told missed nothing |
| `AuthMachine.AuthMachine.Activate` | crates/daemon/src/state.rs:76-112 | the whole new machine and the outcome of an activation |
| `AuthMachine.AuthMachine.Advance` | crates/daemon/src/state.rs:128-220 | a login, code, MFA or skip response: the next state, or the machine with its cookies only |
| `AuthMachine.AuthMachine.CompleteOauth` | crates/daemon/src/state.rs:231-241 | the flow is taken first, then the callback decides |
| `AuthMachine.AuthMachine.StartDeviceLogin` | crates/daemon/src/state.rs:244-249 | a flow that can be polled, or an error and no flow |
| `AuthMachine.AuthMachine.Logout` | crates/daemon/src/state.rs:259-272 | tenant and signing stay, everything of the session goes |
| `AuthMachine.AuthMachine.Snapshot` | crates/daemon/src/state.rs:438-451 | a snapshot exactly when tenant and signing are there |
| `AuthMachine.StepKeepsCoherent` | crates/daemon/src/state.rs:76-288 | each step, with polls, fetches, cookies and restarts interleaved, keeps the machine coherent |
| `AuthMachine.InFlightIsConserved` | crates/daemon/src/service/auth.rs:371-459 | in every run of one process the polls, approvals, fetches, saves and deletions in flight at the end are those that were or came in flight and did not end |
| `AuthMachine.ReachableMachines` | crates/daemon/src/state.rs:76-288 | tenant with signing, a tenant past `Configured`, a pollable flow while waiting for a device login, and always a snapshot when authenticated |
| `AuthMachine.RestartKeepsSession` | crates/daemon/src/daemon.rs:153-169 | an authenticated machine that is saved and restarted comes back with everything but pending flows, authenticated exactly when it had cookies |
| `AuthMachine.RestartGivesEarlierSession` | crates/daemon/src/state.rs:438-483 | in every run, a restart gives back an earlier authenticated machine of the run or a fresh one: the last save that landed, whatever was in flight |
| `AuthMachine.OauthFlowIsLostIff` | crates/daemon/src/state.rs:231-241 | exactly the steps that leave a machine waiting for OAuth without a flow |
| `AuthMachine.LostFlowStaysLost` | crates/daemon/src/state.rs:223-241 | then, in every run in which no flow is started, every callback is refused and changes nothing |
| `AuthMachine.LogoutIsFinalIff` | crates/daemon/src/service/auth.rs:443-459 | after a logout and its deletion the machine can come to be authenticated without a new login, restarts included, exactly when a poll or a save of a session with cookies was in flight or such a session stayed in the file |
| `AuthMachine.LogoutLosesAgainstDeviceLogin` | crates/daemon/src/service/auth.rs:409-433 | a poll approved before a logout ends without cookies, one approved after it with those it was given |
| `AuthMachine.ApprovalIsReachable` | crates/daemon/src/service/auth.rs:371-433 | a run from the start to an approved poll that has not finished |

## Left out

- Dropped RPC futures, overlapping disconnects and sends cancelled in mid-write: an RPC runs all its sections.
- OneLoopPerRun: holds for runs with client RPCs one at a time and no connect inside the failed window; the second condition is shown to be exact.
- Session objects that are started again: the daemon makes a new session for every attempt.
- The TUN device, WireGuard, TLS, HTTP and sockets: foreign code, seen only as success, failure or bytes.
- Routes changed by other programs while a session is up; the insides of the route bypass and its partial failures.
- Durations are whole milliseconds (back-off) or seconds (liveness); clocks are inputs.
- Strings are ASCII as far as lower-casing and trimming go; Unicode case folding and whitespace are not modelled.
- The parsers of addresses, URLs and DNS messages, the packet slicers and the message encoder are parameters of which only the type is used.
- `collect_vpn_servers`, `parse_dns_endpoint`, `networks_from_vpn_conn`, `tunnel_peer`, `decode_key`, `effective_transport`: would add easy members only.
- The entries of a server's hash map are given in one order; `LookupIsOrderFreeIff` says when the scanned tables do not depend on it.
- OwnDomainIsRoutedIff: speaks of questions whose text is the domain and the root's dot. How the DNS library writes a name is not part of this model: names whose labels it escapes are outside the claim, as `a"b.c`, which is accepted and in normal form, and the domains of `QuotedDomainIsLost` if it escapes quotes.
- Routes: a route is its destination, prefix and interface, and `exists` means that very route; a system that answers `exists` for the same destination on another interface is not modelled.
- For which addresses a bound dialer binds is an input of the hijack model; routes that other programs set do not take a session's servers away from it.
- Saves that overlap share one temporary file in the source; each is atomic here. A credentials file that does not parse, and the VPN request kept in it, are not modelled.
- The liveness probe task, apart from its datagrams in the hijack model and its age in the supervisor.
- The directed parallel query has the same shape as the routed one and is the same model.
- Search: takes the endpoint builder as a parameter, because the search does not depend on it; `Negotiate` passes the one of the source.
- What a configuration request carries (key, one-time code, export id, signature): the server's answers are inputs of the search.
- HMAC and SHA are an uninterpreted function with a 32-octet result; an absent salt is the empty key, as in the code.
- The hash-ordered storage of cookies, persistence to disk, configuration merging, identity defaults and protocol messages other than `Tunnel`.
- AuthMachine.Advance: one method for the four operations that send a request and take the next state from its response; the requests themselves and `send_login_code` and `send_mfa_code`, which change no state, are not modelled.
- The user interface, the RPC framing and the mapping of errors to RPC codes.
