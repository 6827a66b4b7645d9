# GhostPort verification

A Dafny model of GhostPort, the encrypted port forwarder: the reverse-stream pairing protocol, the UDP demultiplexers,
the handshake limiter, the firewall's ban decisions and its log-line extractor, configuration validation, the terminal
editor, message framing and request-line reading.

Shared state that tasks change under a lock or through a channel is a state machine: one step per lock-held section,
channel operation or timer, in any order. What holds "over every run" is proved for every finite sequence of enabled
steps from the start state. Beside the state machine stands a class with the source's mutable fields, whose methods each
run one such section and are proved to be the machine's step (`PairingServer.ReverseServer`, `UdpListener.Demux`).
Sliding windows, request lines, framing and the editor are classes and loops proved against functions on values.

Modules, from the ground up:

- `Common`, `EditList`, `SlidingWindow`: options, results, named lists, pruned deques.
- `Configuration`, `Authorization`, `Startup`: the configuration, its validator, who may open what, what start-up needs.
- `StreamPool`, `SignalLine`, `Pairing`, `PairingRuns`, `PairingServer`: reverse streams. The pool holds listeners,
  pending connections and expiry timers; the line holds the bounded channel, the sessions and what clients received.
- `UdpDemux`, `UdpListener`: server sessions and client flows, one machine with a `Setup` for either side.
- `RateLimit`, `Firewall`: the two sliding windows and the tasks around them.
- `Addresses`, `AddressText`, `ColorCodes`, `Regex`, `LogLines`, `LineFacts`, `PrintedLines`: addresses, printed
  lines and the extractor. The four patterns run on a backtracking matcher whose answer is proved to be the leftmost,
  greediest fit.
- `Framing`, `RequestLine`, `Tui`.

## Where the code differs from what it promises

- A claim looks up the stream id alone, so a tunnel for one reverse link can be joined to a connection accepted for
  another (`PairingRuns.CrossClaimPossible`). A run pairs correctly exactly when no hello names another link's stream
  (`PairingRuns.PairingCorrectIffNoCrossClaim`), which clients that only answer signals they received ensure
  (`PairingRuns.HonestClientsPairCorrectly`).
- Stream ids reach the channel in order per link but not across links (`PairingRuns.OvertakingPossible`).
- A wrong key on the data port prints a line that matches none of the four patterns, so it is never counted
  (`PrintedLines.DataWrongKeyIgnored`); on the control port it is (`PrintedLines.WrongKeyReported`).
- A failed UDP handshake's line carries the peer's configured name in front of the error. A name that quotes a rejection
  of another address has that address reported instead (`PrintedLines.UdpFailureMisread`; exact condition in
  `PrintedLines.UdpFailureCorrectIff`, and a plain test on the text that suffices in `PrintedLines.UdpFailureReported`).
  The control line has no such free text: its error is the library's or the matcher's.
- Link-local version 6 peers print a scope id, which the patterns do not match; the extraction lemmas state both cases.
- `send_json` writes the length modulo 2^32 and never checks the receiver's limit; the round trip holds exactly up to
  64 KiB (`Framing.RoundTripIffShort`).
- A request line whose first newline is at offset 8193 to 8703 is accepted or refused depending on how it arrives
  (`RequestLine.CutDoesNotMatterIff`).
- The editor does not mark itself unsaved when a write breaks off half way (`Tui.TornWriteStaysClean`): a clean editor
  agrees with its file exactly when the last write did not break off (`Tui.CleanAgreesIff`). Going through the edit of a
  UDP link without changing anything makes it a TCP link (`Tui.EditUnchanged`).

## Model

| member | source | states |
|---|---|---|
| Configuration.OneSideListens | crates/ghostport-core/src/config.rs:187-192 | in a pair of valid entries of one mode exactly one side has a listening address and exactly the other a target, so no entry is valid on both sides |
| Configuration.NoProblemIffWellFormed | crates/ghostport-core/src/config.rs:197-408 | no rule of the validator is broken exactly when the declarative well-formedness predicate holds |
| Configuration.ValidateFields | crates/ghostport-core/src/config.rs:200-277 | reports exactly the missing, forbidden and undecodable fields of the role |
| Configuration.ValidatePeers | crates/ghostport-core/src/config.rs:347-377 | reports exactly the repeated names, repeated keys, bad keys and unknown links of peers |
| Configuration.UnknownLinks | crates/ghostport-core/src/config.rs:347-377 | exactly the links of a peer that are not configured |
| Configuration.ValidateLink | crates/ghostport-core/src/config.rs:383-408 | reports exactly a missing, forbidden or unparsable address of a link |
| Configuration.ValidateLinks | crates/ghostport-core/src/config.rs:279-285 | reports exactly the link problems, and "duplicate id" once per link beyond the distinct ids |
| Configuration.ValidateUdp | crates/ghostport-core/src/config.rs:295-343 | reports exactly the UDP problems: reverse UDP links, and a UDP address present without UDP links or absent with them |
| Configuration.LinksReportedStep | crates/ghostport-core/src/config.rs:279-285 | one more link adds its own problems and one duplicate report if its id was seen, and nothing else changes |
| Configuration.Validate | crates/ghostport-core/src/config.rs:197-290 | reported if and only if a problem; empty if and only if well formed; duplicate reports number links minus distinct ids |
| Authorization.FirstMatch | crates/ghostport-core/src/peermatch.rs:80-95 | the first candidate whose key opens the message, none only if no key does |
| Authorization.MatchPeerBytes | crates/ghostport-core/src/peermatch.rs:80-95 | the loop finds that first candidate |
| Authorization.MatchIgnoresOrder | crates/ghostport-core/src/peermatch.rs:80-95 | with distinct keys of which at most one opens the message, reordering the peers never changes who is matched |
| Authorization.ResolvePeers | src/main.rs:326-341 | start-up resolves every peer or fails on a key that does not decode; validated peers get distinct keys |
| Authorization.FindLinkUnique | crates/ghostport-core/src/server.rs:486-492 | with distinct ids the lookup by id returns the link itself |
| Authorization.FindLinkIff | crates/ghostport-core/src/server.rs:486-492 | the lookup by id returns exactly the first link of that id, in any configuration |
| Authorization.AuthorizedIffEntitled | crates/ghostport-core/src/server.rs:453-515 | on a validated configuration no `expect` fails, and a hello leads to a dial or a claim exactly when the link is configured, of matching transport and mode, and in the peer's allowlist; the same for UDP |
| Authorization.OpensIff | crates/ghostport-core/src/server.rs:472-513 | validated or not, a TCP hello is dialed or claimed exactly for the first link it names, of its mode and allowed to the peer |
| Authorization.RelaysIff | crates/ghostport-udp/src/server.rs:176-201 | a UDP hello is dialed exactly for the first link it names, if that is a UDP forward link with a target allowed to the peer |
| Startup.SpawnListeners | crates/ghostport-core/src/server.rs:90-111 | one listener for exactly the links that listen on this side, failing only on a missing address |
| Startup.StartServer | crates/ghostport-core/src/server.rs:74-111 | a validated server configuration never fails an `expect` at start |
| Startup.StartClient | crates/ghostport-core/src/client.rs:46-75 | a validated client never fails an `expect` at start, its listeners are exactly the forward links of each transport, and every connection or flow they take dials the configured address without failing one |
| Startup.SpawnedListenersDial | crates/ghostport-udp/src/client.rs:145-149 | the UDP address of every flow, and the data address and counters of every forward tunnel, are there |
| Startup.ListenersMeetMatchingEntries | crates/ghostport-core/src/client.rs:128-167 | a validated server dials for what a validated client's listener announces exactly if it has the same link and allows it to the peer |
| Startup.ListeningLinksHaveAddresses | crates/ghostport-core/src/config.rs:383-408 | validation guarantees the address of every link that listens |
| Startup.AnswersItsReverseLinks | crates/ghostport-core/src/client.rs:254-301 | a validated client answers exactly the signals for its reverse TCP links, dials that link's target and repeats the signalled pair |
| StreamPool.AcceptKeepsSound | crates/ghostport-core/src/server.rs:160-173 | accepting a connection keeps ids, pending map, listener phases and timers consistent |
| StreamPool.ParkKeepsSound | crates/ghostport-core/src/server.rs:174-174 | so does inserting it into the pending map |
| StreamPool.AnnounceKeepsSound | crates/ghostport-core/src/server.rs:176-182 | so does a send the channel took |
| StreamPool.RefuseKeepsSound | crates/ghostport-core/src/server.rs:176-183 | so does a send the channel refused |
| StreamPool.WithdrawKeepsSound | crates/ghostport-core/src/server.rs:186-195 | so does taking the connection back |
| StreamPool.ArmKeepsSound | crates/ghostport-core/src/server.rs:198-201 | so does starting the timer |
| StreamPool.ExpireKeepsSound | crates/ghostport-core/src/server.rs:200-209 | so does the timer, whether or not the id is still pending |
| StreamPool.TakeKeepsSound | crates/ghostport-core/src/server.rs:502-510 | removing an id settles it once; removing an absent id changes nothing |
| StreamPool.ListenerSectionsDrain | crates/ghostport-core/src/server.rs:173-210 | every section of a listener lowers the drain measure |
| StreamPool.ExpiryDrains | crates/ghostport-core/src/server.rs:198-209 | so does every timer |
| StreamPool.DrainedPendingIsBlocked | crates/ghostport-core/src/server.rs:173-210 | once drained, what is pending belongs to listeners blocked on the channel, at most one each |
| SignalLine.EnqueueKeepsSound | crates/ghostport-core/src/server.rs:176-182 | enqueueing keeps attempts plus waiting messages equal to everything enqueued |
| SignalLine.SignalKeepsSound | crates/ghostport-core/src/server.rs:341-366 | so does a session's attempt, and a failed attempt is its session's last |
| SignalLine.SessionKeepsSound | crates/ghostport-core/src/server.rs:318-340 | sessions start, end and close without losing or repeating a message |
| SignalLine.ReceiveKeepsSound | crates/ghostport-core/src/client.rs:235-266 | clients receive only what a session sent |
| Pairing.StepKeepsInv | crates/ghostport-core/src/server.rs:137-515 | every step of the protocol keeps the whole invariant, and final fates stay |
| Pairing.AnnouncementsKept | crates/ghostport-core/src/server.rs:173-182 | announcements name the link their id was issued for, with ids increasing per link |
| Pairing.RelaysKept | crates/ghostport-core/src/server.rs:502-510 | reverse relays stay in one-to-one correspondence with relayed streams under every other step |
| Pairing.HelloKeepsRelays | crates/ghostport-core/src/server.rs:453-515 | a hello adds at most one relay, with the stream's own connection, and only an allowed one |
| PairingRuns.RunKeepsInv | crates/ghostport-core/src/server.rs:137-515 | the invariant holds after every run |
| PairingRuns.EachStreamInOnePlace | crates/ghostport-core/src/server.rs:173-210 | every issued id is exactly one of held, pending, relayed, expired, dropped |
| PairingRuns.NoConnectionUsedTwice | crates/ghostport-core/src/server.rs:502-510 | no external connection is relayed twice, or relayed and also pending, expired or dropped |
| PairingRuns.EveryRelayAllowed | crates/ghostport-core/src/server.rs:453-515 | every relay of every run is over a configured TCP link of its mode in the allowlist of the peer whose key opened the tunnel |
| PairingRuns.StepStartsWhatIsDue | crates/ghostport-core/src/server.rs:493-510 | a data connection starts a relay exactly if it may forward and the dial succeeded, or may have a reverse connection and the one it names is waiting |
| PairingRuns.RelaysAreExactlyDue | crates/ghostport-core/src/server.rs:453-515 | every run starts exactly the relays due to its connections, in order: none is missing and there is no other |
| PairingRuns.PendingChangesExactly | crates/ghostport-core/src/server.rs:173-210 | a stream is pending from its listener's insertion, with its own connection, until its timer, its listener's withdrawal or an entitled claim |
| PairingRuns.PairingCorrectIffNoCrossClaim | crates/ghostport-core/src/server.rs:492-510 | a run joins tunnels to their own link's connections exactly when no hello claims another link's stream |
| PairingRuns.HonestClientsPairCorrectly | crates/ghostport-core/src/client.rs:254-301 | clients that only send hellos for signals they received always pair correctly |
| PairingRuns.HonestMeansNoCrossClaims | crates/ghostport-core/src/client.rs:276-301 | a received signal names its stream's own link, so honest hellos never cross links |
| PairingRuns.CrossClaimPossible | crates/ghostport-core/src/server.rs:502-510 | in every validated server configuration with two reverse links, a run in which a tunnel for the second gets a connection of the first |
| PairingRuns.SignalsInOrder | crates/ghostport-core/src/server.rs:318-366 | attempts over all sessions are a prefix of the enqueue order, one per stream, ids increase per link, sessions do not overlap |
| PairingRuns.SessionEndsExactly | crates/ghostport-core/src/server.rs:341-366 | a session ends exactly at a failed send or a disconnect |
| PairingRuns.UndisturbedSessionAttemptsAll | crates/ghostport-core/src/server.rs:341-366 | a session that meets neither gets every message it attempts through, and what it has not attempted still waits for it in order |
| PairingRuns.OvertakingPossible | crates/ghostport-core/src/server.rs:173-182 | a run in which a later id is announced first on another link |
| PairingRuns.NoPendingLeak | crates/ghostport-core/src/server.rs:173-210 | in every reachable state all but at most one pending stream per listener has an armed timer |
| PairingRuns.StepDrains | crates/ghostport-core/src/server.rs:173-210 | without new connections no step raises the drain measure and every internal step lowers it |
| PairingRuns.DrainIsBounded | crates/ghostport-core/src/server.rs:173-210 | so only boundedly many internal steps remain |
| PairingRuns.StuckMeansBlocked | crates/ghostport-core/src/server.rs:176-182 | with no internal step left, pending shrinks to the streams of listeners blocked on a full channel |
| PairingServer.ReverseServer.AcceptExternal | crates/ghostport-core/src/server.rs:160-173 | takes the counter's id and is the machine's accept step |
| PairingServer.ReverseServer.ParkConnection | crates/ghostport-core/src/server.rs:174-174 | the insertion under the lock is the machine's park step |
| PairingServer.ReverseServer.SendOpenStream | crates/ghostport-core/src/server.rs:176-183 | succeeds exactly while the receiver lives, as announce or failed send |
| PairingServer.ReverseServer.DropUnannounced | crates/ghostport-core/src/server.rs:186-195 | removal after a failed send |
| PairingServer.ReverseServer.SpawnExpiry | crates/ghostport-core/src/server.rs:198-201 | starting the timer |
| PairingServer.ReverseServer.ExpireStream | crates/ghostport-core/src/server.rs:200-209 | the timer reports a timeout exactly when the id was still pending |
| PairingServer.ReverseServer.StartSession | crates/ghostport-core/src/server.rs:318-340 | a session starts only when none runs |
| PairingServer.ReverseServer.ForwardNext | crates/ghostport-core/src/server.rs:341-366 | takes the oldest message and leaves the others; the session survives a successful send and ends after a failed one |
| PairingServer.ReverseServer.ClientReceives | crates/ghostport-core/src/client.rs:235-256 | the client reads a message that was sent |
| PairingServer.ReverseServer.EndSession | crates/ghostport-core/src/server.rs:341-366 | the session ends for any other reason |
| PairingServer.ReverseServer.DropReceiver | crates/ghostport-core/src/server.rs:318-340 | the accept loop ends and closes the channel, from when on sends fail |
| PairingServer.ReverseServer.HandleDataConnection | crates/ghostport-core/src/server.rs:426-515 | forwards exactly for an entitled peer after a successful dial, reverses exactly for an entitled peer and a pending id, which is then gone, and starts no other relay |
| UdpDemux.StepKeepsInv | crates/ghostport-udp/src/server.rs:81-126 | every interleaving of lookup, insert, delivery and removal keeps the invariant |
| UdpDemux.TableKept | crates/ghostport-udp/src/server.rs:85-125 | the table and the live tasks stay in bijection although lookup, insert and remove lock separately |
| UdpDemux.TrailsKept | crates/ghostport-udp/src/server.rs:85-95 | each task's datagrams stay an in-order part of its source's, and queues stay within 16 |
| UdpDemux.DisjointKept | crates/ghostport-udp/src/server.rs:85-95 | no datagram comes to two tasks |
| UdpDemux.TableAndTasksAgree | crates/ghostport-udp/src/client.rs:104-125 | in every reachable state an insert overwrites nothing, a finished task removes its own entry, and a running task's queue is never closed |
| UdpDemux.SessionsIsolated | crates/ghostport-udp/src/server.rs:85-125 | what a session handles is an in-order, duplicate-free part of its own source's traffic, and the queue never exceeds 16 |
| UdpDemux.TrailChanges | crates/ghostport-udp/src/server.rs:85-125 | a session gains a datagram exactly if it is routed there, the task runs and the queue has room, and loses what is queued only by ending |
| UdpDemux.NothingAcceptedIsLost | crates/ghostport-udp/src/client.rs:104-125 | over every run a running task's first, taken and queued datagrams are exactly those accepted for it, in order; an ended one has handled the first part of them |
| UdpDemux.RoutedIsAcceptedOrRefused | crates/ghostport-udp/src/server.rs:86-95 | a routed datagram is accepted as the last so far unless its session's queue is full or abandoned |
| UdpDemux.FirstDatagramFirst | crates/ghostport-udp/src/client.rs:197-223 | a flow past its hello sends its first datagram first, then its queue in order |
| UdpDemux.EntitledKept | crates/ghostport-udp/src/server.rs:176-201 | every step keeps each server session tied to its matched peer and to a link that peer may use |
| UdpDemux.EveryRelayAllowed | crates/ghostport-udp/src/server.rs:104-196 | every UDP relay of every run is over a configured UDP forward link in the allowlist of the peer whose key opened the session's first datagram, to that link's target |
| UdpDemux.EntitledHelloRelays | crates/ghostport-udp/src/server.rs:174-201 | on a validated configuration a waiting session may relay exactly on an entitled hello, and no `expect` fails |
| UdpListener.Demux.ReceiveFrom | crates/ghostport-udp/src/server.rs:82-83 | one datagram from the shared socket |
| UdpListener.Demux.LookupSource | crates/ghostport-udp/src/server.rs:85-85 | finds the sender exactly if the source is in the table |
| UdpListener.Demux.TrySend | crates/ghostport-udp/src/server.rs:94-95 | the datagram goes to the end of its session's queue exactly if the task runs and there is room; otherwise, and for every other session, nothing changes |
| UdpListener.Demux.OpenSession | crates/ghostport-udp/src/server.rs:97-114 | a server opens a session exactly for a permitted datagram that some peer's key opens, and for the first such peer, under a source not in the table |
| UdpListener.Demux.SendHello | crates/ghostport-udp/src/client.rs:191-203 | a flow past its hello sends its first datagram next |
| UdpListener.Demux.ReceiveHello | crates/ghostport-udp/src/server.rs:176-201 | a session goes on to relay exactly if its peer may open the link, and ends otherwise |
| UdpListener.Demux.TakeQueued | crates/ghostport-udp/src/client.rs:207-213 | takes the oldest datagram, which is from the task's own source, leaves the others queued, and a client flow sends it on |
| UdpListener.Demux.EndSession | crates/ghostport-udp/src/server.rs:121-124 | an ended task drops what is still queued |
| UdpListener.Demux.RemoveEntry | crates/ghostport-udp/src/server.rs:121-124 | what a finished task removes is its own entry |
| SlidingWindow.Prune | crates/ghostport-core/src/ratelimit.rs:64-66 | the pop loop leaves exactly the deque from its first recent entry on |
| SlidingWindow.PrunedDeque | crates/ghostport-core/src/ratelimit.rs:63-67 | the length of the pruned deque is the number of logged entries since the cutoff, however much was pruned before |
| RateLimit.AdmitsIffTenthIsOld | crates/ghostport-core/src/ratelimit.rs:67-70 | an address is admitted exactly when its tenth latest recorded attempt has left the window |
| RateLimit.TenAttemptsSpanAWindow | crates/ghostport-core/src/ratelimit.rs:59-71 | the k-th and the (k+10)-th recorded attempts are more than 60 s apart, for every trace |
| RateLimit.LogIsAdmitted | crates/ghostport-core/src/ratelimit.rs:60-71 | an address's log is exactly the times of its admitted attempts, in order |
| RateLimit.RejectedAttemptsLeaveNoTrace | crates/ghostport-core/src/ratelimit.rs:67-69 | without the rejected attempts every log is the same, so they never prolong a lockout |
| RateLimit.DecisionFaithful | crates/ghostport-core/src/ratelimit.rs:62-71 | deciding on the pruned deque is deciding on the full log |
| RateLimit.HandshakeLimiter.RecordAttempt | crates/ghostport-core/src/ratelimit.rs:60-71 | the section under the lock decides as the full-log limiter, prunes and extends the address's own deque and touches no other |
| RateLimit.HandshakeLimiter.TakePermit | crates/ghostport-core/src/ratelimit.rs:72-72 | a permit is granted exactly while fewer than 64 are out |
| RateLimit.HandshakeLimiter.ReleasePermit | crates/ghostport-core/src/server.rs:294-294 | one permit comes back, from a task that holds one, by the explicit drop or the early return its path takes |
| RateLimit.HandshakeLimiter.TryAcquire | crates/ghostport-core/src/ratelimit.rs:59-73 | granted exactly when window and cap have room; an attempt refused by the cap is still recorded |
| RateLimit.HandshakeLimiter.ServeControl | crates/ghostport-core/src/server.rs:280-313 | a control task gives its permit back exactly once whether the handshake succeeds, fails or is late |
| RateLimit.HandshakeLimiter.ServeData | crates/ghostport-core/src/server.rs:426-465 | so does a data task on each of its returns, early or after the explicit drop |
| RateLimit.HandshakeLimiter.AdmitDatagram | crates/ghostport-udp/src/server.rs:97-112 | on a datagram from a new source no permit stays out, and a session is admitted exactly for a granted permit and a matching peer |
| RateLimit.GateStepConserves | crates/ghostport-core/src/server.rs:269-294 | each step of any task, explicit drop and early return apart, keeps free permits plus permit holders at 64 |
| RateLimit.EveryPathReleases | crates/ghostport-core/src/server.rs:426-452 | no state of a task lets it end with its permit: it always has a next step, and ends refused or with one release |
| RateLimit.PermitsConserved | crates/ghostport-core/src/server.rs:403-452 | from the open gate, over every interleaving: permits are conserved, at most 64 are held, each task releases exactly once, and the windows are the naive limiter's for the attempts of the run |
| Addresses.NeverBannableIffInProtectedBlock | crates/ghostport-firewall/src/detector.rs:118-123 | the octet and mask tests protect exactly the loopback, RFC 1918 and link-local blocks, ::1 and fc00::/7 |
| Firewall.UnforgivenSinceLastBan | crates/ghostport-firewall/src/main.rs:224-256 | what the tracker remembers of an address is exactly its failures since its last ban |
| Firewall.AlwaysBelowThreshold | crates/ghostport-firewall/src/main.rs:234-256 | between events fewer failures than the threshold lie in the window |
| Firewall.BannedIffDeserved | crates/ghostport-firewall/src/main.rs:224-256 | banned if and only if unprotected, not allowlisted, and rate-limited or with exactly `threshold` failures in the window since the last ban |
| Firewall.ZeroThresholdNeverBansFailures | crates/ghostport-firewall/src/detector.rs:159-159 | a threshold of zero is never hit, so only rate-limited addresses are banned |
| Firewall.BansArePaidFor | crates/ghostport-firewall/src/main.rs:234-256 | bans for failed handshakes times the threshold, plus what is remembered, never exceed the failures seen |
| Firewall.OthersDoNotMatter | crates/ghostport-firewall/src/detector.rs:149-160 | an address is judged by its own events only |
| Firewall.FiresOnTransition | crates/ghostport-firewall/src/detector.rs:146-160 | for every history and however much was pruned, firing is exactly the step from under the threshold to it within the window |
| Firewall.FiresOncePerStreak | crates/ghostport-firewall/src/detector.rs:146-160 | every failure at or over the threshold belongs to a streak that began by firing and has fired once since the window was last under the threshold |
| Firewall.RecordFaithful | crates/ghostport-firewall/src/detector.rs:149-160 | push and prune leave as many entries as all failures in the window, for every address's log |
| Firewall.FailureTracker.Record | crates/ghostport-firewall/src/detector.rs:149-160 | fires exactly when the failures in the window number the threshold |
| Firewall.FailureTracker.Forget | crates/ghostport-firewall/src/detector.rs:165-167 | drops one address's history and no other |
| Firewall.ShouldBan | crates/ghostport-firewall/src/main.rs:234-241 | rate-limited addresses are banned at once, failures are recorded first |
| Firewall.HandleEvent | crates/ghostport-firewall/src/main.rs:225-255 | protected and allowlisted addresses are passed over unrecorded; a banned address is forgotten |
| Firewall.RunDaemon | crates/ghostport-firewall/src/main.rs:224-256 | over every stream of offenses the loop's decisions are the ones the events call for, and every deque stays shorter than a threshold of at least one |
| Regex.MatchIsTheGreediestFit | crates/ghostport-firewall/src/detector.rs:47-80 | the matcher returns the greediest of all fits, and nothing exactly when there is none |
| Regex.FindIsLeftmost | crates/ghostport-firewall/src/detector.rs:103-104 | the search returns the match at the first position that has one |
| Regex.FindSkips | crates/ghostport-firewall/src/detector.rs:51-72 | a text lacking two adjacent characters of a pattern's literals cannot hold the start of a match |
| AddressText.DecimalCanonical | crates/ghostport-core/src/server.rs:274-274 | printed numbers have no superfluous zero and read back as themselves |
| AddressText.Parse4IffPrinted | crates/ghostport-firewall/src/detector.rs:106-106 | a text parses to a version 4 address if and only if it is that address as printed |
| AddressText.ParsePrintIp | crates/ghostport-firewall/src/detector.rs:106-106 | every printed address parses back to itself |
| ColorCodes.SgrStripped | crates/ghostport-firewall/src/detector.rs:89-93 | any SGR code is removed wherever it stands |
| ColorCodes.SgrLengthExact | crates/ghostport-firewall/src/detector.rs:89-93 | a code is recognised exactly where a complete one stands, in one length only |
| ColorCodes.OnlyCodesStripped | crates/ghostport-firewall/src/detector.rs:89-93 | where no code stands the character is kept |
| ColorCodes.StripText | crates/ghostport-firewall/src/detector.rs:89-93 | text without escapes is kept |
| ColorCodes.StripBoundary | crates/ghostport-firewall/src/detector.rs:89-93 | a code broken off at the end of a text is not completed by the codes after it |
| LogLines.AddrReadOnce | crates/ghostport-firewall/src/detector.rs:52-54 | before a space the address pattern reads a printed socket address in exactly one way, one with a scope in none |
| LogLines.PatternAtFront | crates/ghostport-firewall/src/detector.rs:55-72 | at its own text a pattern captures exactly the address without brackets and port |
| PrintedLines.ControlRejectionExtracted | crates/ghostport-core/src/server.rs:269-277 | for every address and colour codes the printed control rejection gives that address as rate-limited, or nothing if it has a scope |
| PrintedLines.DataRejectionExtracted | crates/ghostport-core/src/server.rs:403-411 | the same for the data listener's rejection |
| PrintedLines.ControlFailureExtracted | crates/ghostport-core/src/server.rs:301-306 | what a failed control handshake's line gives, for every address and every error text |
| PrintedLines.ControlFailureCorrectIff | crates/ghostport-firewall/src/detector.rs:101-113 | it gives the failing address exactly when the error text does not read as a rejection |
| PrintedLines.ControlFailureReported | crates/ghostport-firewall/src/detector.rs:101-113 | so it does for every error text without the letters "je" |
| PrintedLines.WrongKeyReported | crates/ghostport-core/src/peermatch.rs:52-52 | in particular for the text a wrong key prints |
| PrintedLines.UdpFailureExtracted | crates/ghostport-udp/src/server.rs:149-149 | what a failed UDP handshake's line gives, for every address, peer name and error text |
| PrintedLines.UdpFailureCorrectIff | crates/ghostport-firewall/src/detector.rs:101-113 | it gives the failing address exactly when name and error do not read as another offense |
| PrintedLines.UdpFailureReported | crates/ghostport-firewall/src/detector.rs:101-113 | so it does when name and error have neither "je" nor "l:" in them |
| PrintedLines.UdpFailureMisread | crates/ghostport-udp/src/server.rs:149-149 | a peer name for which it does not |
| PrintedLines.ControlTimeoutIgnored | crates/ghostport-core/src/server.rs:307-312 | a control timeout gives no offense |
| PrintedLines.DataTimeoutIgnored | crates/ghostport-core/src/server.rs:415-421 | nor does a data handshake timeout |
| PrintedLines.DataWrongKeyIgnored | crates/ghostport-core/src/server.rs:415-421 | nor does a wrong key on the data port |
| PrintedLines.UdpTimeoutIgnored | crates/ghostport-udp/src/server.rs:168-173 | nor does a UDP session that never says hello |
| Framing.Le32RoundTrip | crates/ghostport-core/src/framing.rs:23-23 | the prefix reads back as the length modulo 2^32 |
| Framing.LittleEndian | crates/ghostport-core/src/framing.rs:23-23 | the four bytes of a length go out least significant first |
| Framing.ReceiveFrame | crates/ghostport-core/src/framing.rs:31-44 | a frame consumes 4 plus length bytes, an oversized one is refused after 4 |
| Framing.RoundTripIffShort | crates/ghostport-core/src/framing.rs:12-44 | a message comes back exactly when it is at most 64 KiB long |
| Framing.ListRoundTrip | crates/ghostport-core/src/framing.rs:16-44 | any list of such messages comes back in order and the rest is left alone |
| Framing.CutFrameIsRefused | crates/ghostport-core/src/framing.rs:31-44 | a frame cut anywhere is an error, never another message |
| Framing.Stream.ReadExact | crates/ghostport-core/src/framing.rs:31-42 | reading exactly n bytes depends on the bytes only, not on how they arrive |
| Framing.RecvJson | crates/ghostport-core/src/framing.rs:31-44 | one receive over any chunking is the receive on the whole byte sequence |
| Framing.ReceiveAll | crates/ghostport-core/src/framing.rs:31-44 | repeated receives on a stream of any chunking return exactly the messages sent, and leave the rest unread |
| Framing.SendJson | crates/ghostport-core/src/framing.rs:16-26 | writes the frame of the serialized message, or nothing |
| RequestLine.ReadRequestLine | crates/ghostport-metrics/src/http.rs:90-111 | the loop computes the piecewise outcome and buffer peak |
| RequestLine.BufferBounded | crates/ghostport-metrics/src/http.rs:90-111 | the buffer never exceeds 8704 bytes |
| RequestLine.OutcomeOfAnyCut | crates/ghostport-metrics/src/http.rs:90-111 | with the first newline among the first 8193 bytes, none, or at offset 8704 or later, every chunking gives the whole input's outcome |
| RequestLine.CutDoesNotMatterIff | crates/ghostport-metrics/src/http.rs:90-111 | and exactly then the chunking does not matter |
| RequestLine.OneByOneFails | crates/ghostport-metrics/src/http.rs:105-109 | otherwise reading byte by byte is refused |
| RequestLine.BlocksSucceed | crates/ghostport-metrics/src/http.rs:99-104 | while reading in full chunks succeeds |
| EditList.PlaceMeaning | src/tui/app.rs:398-414 | a finished wizard replaces the entry under edit and any of the same key, selects the new one, and keeps keys distinct |
| EditList.PlaceKeepsOrder | src/tui/app.rs:398-407 | the entries a wizard leaves alone are exactly those of other keys, in their order, before the new one |
| EditList.RetainKeepsOrder | src/tui/app.rs:399-403 | what is retained is exactly what has another key, in its order |
| EditList.RemoveAtMeaning | src/tui/app.rs:434-445 | a removal takes out one entry and keeps keys distinct |
| EditList.RemoveAtKeepsOrder | src/tui/app.rs:434-445 | every other entry stays, in its order |
| Tui.TrimMeaning | src/tui/app.rs:305-305 | trimming takes off all whitespace at both ends and nothing else |
| Tui.KeysWrittenOut | src/tui/mod.rs:149-308 | which keys confirm, move and choose a mode |
| Tui.SteppedMeaning | src/tui/app.rs:248-255 | a cursor goes one on or one back around the ends, and other keys leave it |
| Tui.DownAndUpUndoEachOther | src/tui/app.rs:248-255 | down and up undo each other |
| Tui.TypedMeaning | src/tui/mod.rs:225-229 | a typed character goes to the end and backspace takes it off |
| Tui.AllButLogsAsk | src/tui/app.rs:78-80 | every action but viewing logs asks first |
| Tui.TabsCycle | src/tui/app.rs:233-240 | Tab goes through the four tabs in turn |
| Tui.NewLinkMeaning | src/tui/app.rs:382-398 | the wizard's link has the one address its role and mode require |
| Tui.CurrentAddressMeaning | src/tui/app.rs:278-278 | an edit starts from the address the link must have on this side |
| Tui.LocalAddressMeaning | src/tui/app.rs:298-298 | a template suggests its port on the printed loopback address |
| Tui.EventHasEffect | src/tui/mod.rs:115-308 | the event of a key changes configuration, mark and file exactly as written out key by key |
| Tui.EditUnchanged | src/tui/app.rs:272-423 | the keys e, Enter, mode letter, Enter on a link put it last and over TCP, so the same links are configured exactly when it was a TCP link |
| Tui.ToggleChangesOne | src/tui/app.rs:589-599 | a toggle changes the one link, and toggling twice changes nothing |
| Tui.ConfigIsKept | src/tui/app.rs:357-461 | over every run ids and names stay unique, well-formed links and decodable keys stay so, and nothing but links and peers changes |
| Tui.FileDamagedIff | src/tui/app.rs:447-461 | over every run the file is damaged exactly when the last write broke off, and otherwise is the loaded or a validated one |
| Tui.CleanAgreesIff | src/tui/app.rs:447-461 | a clean editor agrees with its file exactly when the last write did not break off |
| Tui.TornWriteStaysClean | src/tui/app.rs:447-461 | a broken-off write leaves the editor clean beside a damaged file |
| Tui.App.constructor | src/tui/app.rs:156-190 | the editor starts clean, on the loaded configuration |
| Tui.App.MoveLinkSelection | src/tui/app.rs:248-255 | the cursor wraps around and stays on a link |
| Tui.App.BeginAddLink | src/tui/app.rs:258-266 | the link wizard starts empty |
| Tui.App.BeginEditLink | src/tui/app.rs:272-282 | the edit wizard starts from the selected link |
| Tui.App.ConfirmTemplateChoice | src/tui/app.rs:293-302 | a template fixes id, mode and address suggestion; "custom" fixes nothing |
| Tui.App.ConfirmLinkId | src/tui/app.rs:304-320 | an empty id cancels; otherwise the next step has what it needs |
| Tui.App.ChooseLinkMode | src/tui/app.rs:325-329 | the mode is chosen, the address step starts from the suggestion |
| Tui.App.ConfirmLinkAddress | src/tui/app.rs:357-423 | places the link exactly when the address parses; keeps the step on a typo; an empty address changes nothing |
| Tui.App.CancelLinkWizard | src/tui/app.rs:425-432 | back to normal with the wizard emptied and the configuration untouched |
| Tui.App.RemoveSelectedLink | src/tui/app.rs:434-445 | removes the selected link and keeps the cursor in range |
| Tui.App.SaveConfig | src/tui/app.rs:447-461 | writes exactly well-formed configurations |
| Tui.App.MovePeerSelection | src/tui/app.rs:469-476 | the peer cursor wraps around |
| Tui.App.BeginAddPeer | src/tui/app.rs:482-499 | only a server's configuration gets peers |
| Tui.App.BeginEditPeer | src/tui/app.rs:501-516 | the edit wizard starts from the selected peer |
| Tui.App.ConfirmPeerName | src/tui/app.rs:522-534 | an empty name cancels |
| Tui.App.ConfirmPeerPublicKey | src/tui/app.rs:550-576 | the checklist is reached only with a key that decodes |
| Tui.App.MovePeerLinksCursor | src/tui/app.rs:578-585 | the checklist cursor stays in range |
| Tui.App.TogglePeerLink | src/tui/app.rs:589-599 | toggles the link under the cursor |
| Tui.App.ConfirmPeerLinks | src/tui/app.rs:609-647 | places the peer that was gathered; the fallback arm cannot be reached |
| Tui.App.CancelPeerWizard | src/tui/app.rs:649-657 | back to normal with the configuration untouched |
| Tui.App.RemoveSelectedPeer | src/tui/app.rs:659-670 | removes the selected peer and keeps the cursor in range |
| Tui.App.ActivateSelectedServiceAction | src/tui/app.rs:687-695 | viewing logs runs at once, everything else asks first |
| Tui.App.HandleKey | src/tui/mod.rs:115-308 | every key keeps the mode invariant; with the keys written out, exactly y or Y at the three prompts, Enter on a good address, on the checklist or on viewing logs, and s on a list tab change configuration, file or system |
| Tui.App.HandleNormal | src/tui/mod.rs:134-205 | digits and Tab choose the tab, q and Esc quit, and only s saves |
| Tui.App.HandleLinksTab | src/tui/mod.rs:149-166 | cursor keys, add, edit and remove prompts of the link list |
| Tui.App.HandleServiceTab | src/tui/mod.rs:167-179 | cursor keys and Enter on the service menu |
| Tui.App.HandlePeersTab | src/tui/mod.rs:187-203 | cursor keys, add, edit and remove prompts of the peer list |
| Tui.App.HandleChooseTemplate | src/tui/mod.rs:207-216 | the cursor moves, Enter goes on, Esc gives up |
| Tui.App.HandleLinkTextInput | src/tui/mod.rs:218-233 | typing edits the text only; Enter confirms the step at hand |
| Tui.App.HandleLinkModeChoice | src/tui/mod.rs:235-247 | f chooses forward, r reverse |
| Tui.App.HandlePeerTextInput | src/tui/mod.rs:249-264 | typing edits the text only; the checklist follows exactly a key that decodes |
| Tui.App.HandlePeerLinksChecklist | src/tui/mod.rs:266-276 | space toggles the link under the cursor, cursor keys only move |
| Tui.App.HandleConfirmRemoveLink | src/tui/mod.rs:286-292 | the selected link is removed exactly on y or Y |
| Tui.App.HandleConfirmRemovePeer | src/tui/mod.rs:278-284 | the selected peer is removed exactly on y or Y |
| Tui.App.HandleConfirmServiceAction | src/tui/mod.rs:294-308 | the action that was asked about runs exactly on y or Y |
| Tui.Session | src/tui/mod.rs:76-113 | for every key sequence and every way writes end, the invariant, the kept configuration and the agreement with the file hold |

## Left out

- Sockets, the tokio runtime, TLS-like encryption, SHA-256 and base64: libraries. Reading a Noise message is a predicate on key and message, decoding a key is an abstract partial function.
- JSON and TOML text: payloads are byte sequences behind an abstract codec, the configuration file is a stored value.
- UdpListener.Demux.ReceiveHello: a link without a target, which validation rules out, ends the session instead of failing an `expect`.
- StreamPool.AcceptKeepsSound: the 64-bit id counter is not taken past its last value; no listener accepts once it is used up.
- The 10-second and 5-second durations: a timer may fire at any moment after it was started.
- Framing.RecvJson: speaks of calls that run to their end; inside `select!` another branch can cancel a partial read.
- Half-dead control connections: a session may go on accepting signals nobody reads.
- Text of version 6 addresses: printing and parsing are an abstract pair assumed to invert each other and to use hexadecimal digits, colons and dots.
- The wording of validation errors and editor messages: one value per family of message.
- Firewall.RunDaemon: whether the nft call succeeds is not modelled; the source forgets the address either way.
- Reading of the firewall's allowlist: entries that do not parse are dropped before the model starts.
- Growth of per-address maps: addresses that stop connecting keep their entry, as the source documents.
- Tui.App.HandleKey: the status and service queries of a key or an idle tick are not modelled, nor is drawing.
- The editor's wizard fields are grouped in two records, `LinkWizard` and `PeerWizard`, where the source has flat fields.
- Trimming and lossy decoding of the finished request line, and the parsing of its path: easy members.
- Relay byte counts, status snapshots, rates, reconnect back-off, systemd and journal plumbing: easy members or process launching.
