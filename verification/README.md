# Peer bridge in Dafny

This project models the protocol core of a peer-to-peer messaging and file-transfer bridge
and proves what its parts promise, alone and together:

- **Codecs.** Base32 with a 32-bit bit accumulator, the Luhn mod 32 check character, peer ids,
  the `known_peers` file, the 88-byte signed fingerprint payload and the SDP fingerprint scan.
- **Rendezvous server.** Registration index, offline notification queues, single-use invites,
  the rate limiter, and the dispatch and close handling that ties them together.
- **Rendezvous client.** The five-state connection machine, the first-in first-out request slot
  and reconnects with backoff; then client and server composed over the wire.
- **Relay gate.** Signed offers and answers, verified concurrently, with buffered ICE candidates.
- **File transfer.** Sender, receiver and backpressure, then the two composed over two control
  directions and a bulk channel with no order between them.

## How it is organised

Each stateful component is a class in the form of the source (fields, methods, loops), whose
methods are proved equal to a step function on a value (`Next`, or `OnOffer`, `OnChunk` and so on).
Theorems are lemmas about runs of that step function, so they hold of every interleaving of
events. A codec is a method with the source's loops, proved equal to a reference definition
(big-endian numerals for base32, a line-by-line fold for the parsers) about which the round trips
are proved. `ClientEffects`, `ServerEffects` and `PeerTables` say what client, server and parser do in
terms of events, frames and file contents alone. `RequestReply`, `ClientServer`, `ChunkPump` and `FileTransfer` compose components and
prove what spans them.

Bytes, shifts and masks: `Shifts` defines them one bit at a time over unbounded numbers, and
`Base32` reduces modulo 2^32 wherever the source's shifts do. SHA-256 and signatures are symbolic:
a digest is its input, a signature verifies exactly for the key and payload it was made for; digests
and signatures that nobody made are part of the types.

Where a property one might expect is false of the code, the exact condition is proved, with a run from
the start that fails where the condition alone does not show one:

- `RateLimiter.AtMostIff`, `WindowBoundReached`: fixed windows, not a sliding one, so an hour can hold
  2·max − 1 requests.
- `Registry.AgreesIff`, with `SecondIdStaysBehind` and `StaleCloseEvicts` as the two runs that break
  the registration index; two hypotheses on sockets restore it (`IndexFollowsHistory`).
- `KnownPeers.RoundTripIff`: printing and parsing round-trip exactly for non-empty, newline-free fields.
- `PeerId.ReencodesIff`: four unused bits make 16 spellings of a key decodable, one of them canonical.
- `FileSender.AbortOverriddenIff`, `AbortOverriddenReachable`: an aborted transfer can still end in `done`.
- `FileSender.ListenerRestoredIff`, `PromiseResolvesIff`, `OpenFailureHangs`, `OpenFailureReachable`: an abort or a failure can lose
  the application's listener, and after a failed open only an abort settles the promise.
- `FileReceiver.DoneLeftIff`: `done` is left by an abort, and by nothing else.
- `FileReceiver.AbortRaceIff`, `AbortRacesRename`: an abort during the rename races with it.
- `FileReceiver.LengthHonouredIff`, `SizeNotEnforced`: the size limit binds the offer's claim, and the
  content only as far as the offered digest does; `FileTransfer.HonestLength` for an honest sender.
- `FileTransfer.StreamEndDecides`, `OutcomeFollowsArrivals`, `OvertakingIsReachable`: `file_done` may overtake
  chunks, and then the transfer is lost although both channels are reliable.
- `BulkBackpressure.SentLaterIff`, `OverwrittenReachable`: among concurrent callers only the one that installed the listener last
  can still be sent; `ChunkPump` proves that the chunk loop is never another one.
- `RelayGate.NoLossIff`, `FinishOrderDecides`, `LossIsReachable`: one rejected description discards the
  pending candidates of all.
- `RendezvousClient.LeavesConnectingIff`, `StallsReachable`: once its socket is no longer opening, a client
  that is still `connecting` stays so for good.

The code and its own comments disagree in three places, and the model follows the code: the rate
limiter is called a sliding window (rate-limit.ts:1) but uses fixed ones; the close handler is called
the sole driver of reconnects (signaling.ts:640-642) but is not attached yet when an open fails; buffered
candidates are said to have matched the rejected description (rendezvous-relay.ts:248) but all pending
ones are discarded.

## Model

| member | source | states |
|---|---|---|
| Base32.EncodeBase32 | packages/protocol/src/peer-id.ts:19-40 | the accumulator loop yields the base-32 numeral of the bytes read as one big-endian number, zero-padded |
| Base32.DecodeBase32 | packages/protocol/src/peer-id.ts:45-67 | the loop yields the whole bytes of the digits' number, or the first bad character |
| Base32.RoundTrip | packages/protocol/src/peer-id.ts:19-67 | for byte strings of every length decoding undoes encoding, and the text has ceil(8n/5) characters |
| Base32.DecodeEncodeDigits | packages/protocol/src/peer-id.ts:19-67 | the round trip on digits, through the numeral both sides denote |
| Base32.EncodeDecodeDigits | packages/protocol/src/peer-id.ts:45-67 | a digit string is re-encoded to itself exactly when its length is an encoder's and its spare bits are zero |
| Base32.SeparatorsIgnored | packages/protocol/src/peer-id.ts:51-53 | `=` and `-` count for nothing anywhere in the text |
| Base32.ScanErrorIff | packages/protocol/src/peer-id.ts:51-57 | decoding fails exactly at the first character that is neither a digit nor a separator |
| Base32.ShiftIn | packages/protocol/src/peer-id.ts:25-26 | bits that the 32-bit shift drops were no longer pending |
| Base32.ShiftOut | packages/protocol/src/peer-id.ts:27-31 | taking a group from the top leaves the number carried unchanged |
| LuhnMod32.LuhnMod32Checksum | packages/protocol/src/peer-id.ts:73-91 | the right-to-left loop computes the check digit, or reports the rightmost bad character |
| LuhnMod32.ValidIsZeroSum | packages/protocol/src/peer-id.ts:88-101 | a string carries its check digit exactly when the sum over all of it is 0 modulo 32 |
| LuhnMod32.CheckDigitUnique | packages/protocol/src/peer-id.ts:88-90 | every digit string of any length has exactly one check digit |
| LuhnMod32.SingleErrorDetected | packages/protocol/src/peer-id.ts:73-102 | changing any one character, the check character included, is detected |
| LuhnMod32.SwapUndetectedIff | packages/protocol/src/peer-id.ts:73-102 | swapping any two characters goes unnoticed exactly when they are equal, an even distance apart, or the pair A and 7 |
| PeerId.EncodePeerId | packages/protocol/src/peer-id.ts:107-128 | prefix, 8 groups of 6 and one of 5, or the length error |
| PeerId.DecodePeerId | packages/protocol/src/peer-id.ts:133-154 | strips, upper-cases, checks length and check character, decodes the first 52 |
| PeerId.DecodeStrippedIff | packages/protocol/src/peer-id.ts:141-153 | accepted exactly: 53 base32 characters with a valid check digit; the key is in the first 52 |
| PeerId.WritingsAccepted | packages/protocol/src/peer-id.ts:135-139 | the prefix, the dashes and the case do not matter |
| PeerId.RefusedFor | packages/protocol/src/peer-id.ts:141-150 | the three ways to be refused, and for which strings |
| PeerId.RoundTrip | packages/protocol/src/peer-id.ts:107-154 | decodePeerId(encodePeerId(k)) = k for every 32-byte key |
| PeerId.Injective | packages/protocol/src/peer-id.ts:107-128 | different keys have different ids |
| PeerId.CanonicalIff | packages/protocol/src/peer-id.ts:133-154 | the 53 characters of an accepted id are those of its key's id exactly when the 52nd digit ends in four zero bits |
| PeerId.ReencodesIff | packages/protocol/src/peer-id.ts:107-154 | an accepted string re-encodes to itself exactly when it is in the printed form and the 52nd digit ends in four zero bits |
| PeerId.TypoAcceptedIff | packages/protocol/src/peer-id.ts:133-154 | an id with one significant character replaced is accepted exactly when the new one upper-cases to the old |
| PeerId.TypoRejected | packages/protocol/src/peer-id.ts:141-150 | after stripping, another character in any of the 53 places is rejected |
| KnownPeers.ParseKnownPeers | packages/core/src/known-peers.ts:27-90 | the loop is the line-by-line fold, including every skip, error and the final table |
| KnownPeers.SerializeKnownPeers | packages/core/src/known-peers.ts:108-120 | seven lines a peer, joined by newlines |
| KnownPeers.ParseEntry | packages/core/src/known-peers.ts:49-82 | a printed entry assigns exactly the printed value, embedded quotes, `=` and `#` included |
| PeerTables.ParseIsTables | packages/core/src/known-peers.ts:27-103 | the parser returns the peers of the file's tables, each with the values last assigned, or the first error among them; all other lines have no effect |
| KnownPeers.ParsedIsClean | packages/core/src/known-peers.ts:92-103 | every accepted file gives non-empty, newline-free fields |
| KnownPeers.RoundTripIff | packages/core/src/known-peers.ts:27-120 | parsing what was printed gives the same list exactly when all fields are non-empty and newline-free |
| KnownPeers.Normalizes | packages/core/src/known-peers.ts:27-120 | saving a loaded file and loading it again changes nothing, for every accepted file |
| RateLimiter.Limiter.Check | packages/rendezvous/src/rate-limit.ts:23-42 | answer and new counters for a request, with the sampled cleanup |
| RateLimiter.Limiter.Cleanup | packages/rendezvous/src/rate-limit.ts:56-63 | the deletion loop removes exactly the entries strictly older than a window |
| RateLimiter.CleanupInvisible | packages/rendezvous/src/rate-limit.ts:23-63 | with a nondecreasing clock, when cleanups run changes no answer |
| RateLimiter.WindowBound | packages/rendezvous/src/rate-limit.ts:23-42 | any half-open interval of one window length holds at most 2·max − 1 allowed requests of an address, max counted as at least 1 |
| RateLimiter.WindowBoundReached | packages/rendezvous/src/rate-limit.ts:23-42 | for every max >= 1 a run reaches that bound |
| RateLimiter.RefusedIff | packages/rendezvous/src/rate-limit.ts:27-41 | a request is refused exactly when it comes within a window length of the start of the window that the admissions before it fall into, and that window is full |
| RateLimiter.CleanupForgets | packages/rendezvous/src/rate-limit.ts:56-63 | a cleanup leaves no counter whose window started more than a window length ago |
| RateLimiter.AtMostIff | packages/rendezvous/src/rate-limit.ts:1-42 | a bound holds for all runs exactly when it is at least 2·max − 1, so "max per hour" holds only for max = 1 |
| Registry.AgreesIff | packages/rendezvous/src/server.ts:77-89 | index and history agree at every moment exactly when each closing or failing socket evicts only its own current peer |
| Registry.IndexFollowsHistory | packages/rendezvous/src/handlers/register.ts:55-80 | with one id per socket and errors followed by closes, p is registered to s exactly when p's last admitted register came from s and s is still there |
| Registry.ReplacedSocketCloses | packages/rendezvous/src/handlers/register.ts:64-68 | closing a replaced socket leaves the newer registration |
| Registry.CapacityKept | packages/rendezvous/src/handlers/register.ts:55-60 | the peer count never exceeds max_peers, in any run |
| Registry.KeysMatchIds | packages/rendezvous/src/handlers/register.ts:48-53 | every registered id carries the key it encodes |
| Registry.SecondIdStaysBehind | packages/rendezvous/src/handlers/register.ts:64-80 | a run in which a socket's first id outlives the socket |
| Registry.StaleCloseEvicts | packages/rendezvous/src/server.ts:77-89 | a run in which a close evicts a register made between the error and the close |
| OfflineQueue.Conservation | packages/rendezvous/src/handlers/notify.ts:21-68 | accepted = handed over + still queued + expired, as multisets; what was queued is what was drained followed by the queue |
| OfflineQueue.QueuesSorted | packages/rendezvous/src/handlers/notify.ts:59-68 | with a nondecreasing clock every queue is sorted by time |
| OfflineQueue.ActiveIsSuffix | packages/rendezvous/src/handlers/register.ts:86-88 | on a sorted queue the expiry filter keeps exactly a suffix |
| OfflineQueue.DrainDeliversSuffix | packages/rendezvous/src/handlers/register.ts:82-90 | a drain hands over the unexpired end of the arrivals since the drain before, in order |
| Invites.StoreFollowsHistory | packages/rendezvous/src/handlers/invite-redeem.ts:20-47 | store and history differ at most in expired records |
| Invites.RedeemFollowsHistory | packages/rendezvous/src/handlers/invite-redeem.ts:20-47 | a redeem returns the latest create's record exactly when it was not redeemed since and expires strictly later |
| Invites.SweepInvisible | packages/rendezvous/src/server.ts:163-170 | inserting or removing sweeps anywhere changes no reply |
| Invites.RedeemedAtMostCreated | packages/rendezvous/src/handlers/invite-redeem.ts:38-46 | successful redeems of a hash never outnumber successful creates, whatever the clock does |
| Invites.SingleUse | packages/rendezvous/src/handlers/invite-redeem.ts:38-39 | after a redeem nothing is found until the hash is created again |
| RendezvousServer.Server.OnGone | packages/rendezvous/src/server.ts:77-89 | close and error evict the peer that the socket maps to |
| RendezvousServer.Server.SweepInvites | packages/rendezvous/src/server.ts:163-170 | the sweep loop removes exactly the expired records |
| RendezvousServer.Server.HandleRegister | packages/rendezvous/src/handlers/register.ts:62-90 | new index, socket map and drained queue of an admitted register |
| RendezvousServer.Server.HandleNotify | packages/rendezvous/src/handlers/notify.ts:21-57 | deliver, queue on a failed send, queue when offline, drop when too large |
| RendezvousServer.Server.QueueNotification | packages/rendezvous/src/handlers/notify.ts:59-68 | appends to the peer's queue |
| RendezvousServer.Server.HandleInviteCreate | packages/rendezvous/src/handlers/invite-create.ts:29-63 | stores the record exactly when all fields are valid and it is not expired |
| RendezvousServer.Server.HandleInviteRedeem | packages/rendezvous/src/handlers/invite-redeem.ts:20-47 | returns the unexpired record and deletes any record found |
| RendezvousServer.Server.DispatchRegister | packages/rendezvous/src/server.ts:181-224 | identity and signature checks, refusal closes, queued notifications, then register_ok |
| RendezvousServer.Server.DispatchRequest | packages/rendezvous/src/server.ts:137-156 | state and replies of the five request kinds |
| RendezvousServer.Server.OnEvent | packages/rendezvous/src/server.ts:75-170 | every event moves the whole server to the specified state with the specified output |
| RendezvousServer.StoresFollowHistories | packages/rendezvous/src/server.ts:75-170 | in every run the three stores are replays of their own histories |
| RendezvousServer.DrainBeforeRegisterOk | packages/rendezvous/src/server.ts:210-223 | a register puts the unexpired suffix on the wire, oldest first, before its register_ok |
| RendezvousServer.ServerIndexFollowsHistory | packages/rendezvous/src/server.ts:77-118 | whom the server reaches under an id is what the history of orderly sockets says |
| RendezvousServer.RedeemReply | packages/rendezvous/src/server.ts:250-257 | the redeem reply on the wire is the last unredeemed, unexpired create's record or not_found |
| RendezvousServer.HandedIsOnTheWire | packages/rendezvous/src/handlers/notify.ts:38-57 | a step's notify_in frames are exactly what its queue event hands over |
| RendezvousServer.NotificationsConserved | packages/rendezvous/src/handlers/notify.ts:21-68 | over whole server runs, for every peer: accepted = notify_in frames put on the wire + queued + expired |
| RendezvousServer.WireIsHanded | packages/rendezvous/src/handlers/notify.ts:38-57 | the notify_in frames of a run for a peer are, as a multiset, what its ledger handed over |
| ServerEffects.RegisterAnswered | packages/rendezvous/src/handlers/register.ts:44-90 | in every run a register signed by the id's owner succeeds exactly when the peer is registered or there is room, with the entries made; else it is closed with 1013 or 1008 and nothing changes |
| ServerEffects.SpeakerIs | packages/rendezvous/src/server.ts:116-132 | a frame is obeyed for a peer exactly when its socket is mapped to that registered peer and it is signed with the key in the id |
| ServerEffects.HolderSpeaks | packages/rendezvous/src/server.ts:116-132 | with orderly sockets, the socket that the history gives to a peer can speak for it |
| ServerEffects.LookupAndSignalAnswered | packages/rendezvous/src/server.ts:137-148 | a lookup says whether the peer is registered; a signal goes to its target's registered socket under the speaker's id, or nowhere |
| ServerEffects.OtherFramesAnswered | packages/rendezvous/src/server.ts:91-156 | malformed frames and frames nobody registered has signed close with 1008, unknown kinds are tolerated, and none changes a store |
| ServerEffects.EveryDepositIsAccepted | packages/rendezvous/src/handlers/notify.ts:26-56 | in every run what the ledger has accepted for a peer is exactly what valid signed notify frames carry for it, registered or not |
| ServerEffects.DepositsConserved | packages/rendezvous/src/handlers/notify.ts:21-68 | from frames to frames: deposited = put on the wire + queued + expired |
| ServerEffects.OfflineDelivery | packages/rendezvous/src/handlers/notify.ts:55-67 | a notify to an unregistered peer that registers within the time to live is the last thing on its socket before register_ok |
| ServerEffects.CountersAreLimiter | packages/rendezvous/src/server.ts:238-244 | the server's counters are those of a limiter asked once for each invite_create of a registered speaker |
| ServerEffects.CreateAnswered | packages/rendezvous/src/handlers/invite-create.ts:29-63 | an invite_create is closed exactly when the limiter refuses it, else granted and stored exactly when hash and key are there and the date lies ahead |
| ServerEffects.CreateThenRedeem | packages/rendezvous/src/handlers/invite-redeem.ts:20-47 | a granted invite is redeemed exactly before its date and is gone after |
| ServerEffects.SweepLeaves | packages/rendezvous/src/server.ts:163-170 | after a sweep exactly the unexpired records are stored |
| RendezvousServer.RepliesAreSolicited | packages/rendezvous/src/server.ts:137-156 | a lookup or invite result goes only to the socket whose request of that kind is being handled |
| RendezvousServer.RegistersAreSigned | packages/rendezvous/src/server.ts:192-201 | a register that has any effect or answer but a close is signed with the key its id encodes |
| RendezvousServer.RequestAnsweredOnce | packages/rendezvous/src/server.ts:137-156 | each request gets one answer of its kind, or a close, on its own socket and nothing else |
| RendezvousServer.ActsAreSigned | packages/rendezvous/src/server.ts:112-135 | in every run a frame other than a register that changes a store or gets an answer is signed with the key that its sender's id encodes |
| RendezvousClient.Rendezvous.Connect | packages/core/src/signaling.ts:180-195 | throws unless disconnected; resets the reconnect state and opens a socket |
| RendezvousClient.Rendezvous.Disconnect | packages/core/src/signaling.ts:232-250 | cancels the timer and closes the socket, or leaves `reconnecting` at once |
| RendezvousClient.Rendezvous.SendRequestCall | packages/core/src/signaling.ts:358-401 | accepted only when ready; takes its turn for the single slot |
| RendezvousClient.Rendezvous.ReleaseSlot | packages/core/src/signaling.ts:363-399 | the next waiting call is sent, or fails when there is no socket, and so on down the queue |
| RendezvousClient.Rendezvous.Push | packages/core/src/signaling.ts:326-350 | signal and notify bypass the queue |
| RendezvousClient.Rendezvous.OnMessage | packages/core/src/signaling.ts:471-531 | dispatch of a frame in the order of the source's tests |
| RendezvousClient.Rendezvous.ArmReconnect | packages/core/src/signaling.ts:616-633 | counts, gives up, or arms the timer with base·2^(attempt−1) |
| RendezvousClient.Rendezvous.HandleClose | packages/core/src/signaling.ts:533-587 | clears the socket, rejects resolver and pending call, then reconnects or disconnects |
| RendezvousClient.Rendezvous.OnSocketClosed | packages/core/src/signaling.ts:533-587 | the close handler and the queue it releases, in one step |
| RendezvousClient.Rendezvous.OnOpen | packages/core/src/signaling.ts:217-222 | handlers attached, then register |
| RendezvousClient.Rendezvous.OnOpenFailed | packages/core/src/signaling.ts:203-214 | the promise rejects and nothing else changes |
| RendezvousClient.Rendezvous.OnRegisterTimeout | packages/core/src/signaling.ts:432-440 | the resolver goes; a reconnect attempt also closes its socket |
| RendezvousClient.Rendezvous.OnReconnectTimer | packages/core/src/signaling.ts:629-648 | clears the timer and opens a socket |
| RendezvousClient.StatesAreCoherent | packages/core/src/signaling.ts:180-250 | in every run: a timer exactly while reconnecting, no socket there; ready has a socket; disconnected has no socket, timer, resolver or call |
| RendezvousClient.QuietAfterDisconnect | packages/core/src/signaling.ts:232-250 | no socket is opened between a disconnect() and the next connect() |
| RendezvousClient.ReconnectsAreBounded | packages/core/src/signaling.ts:616-633 | between connects at most maxAttempts reconnect events, the k-th with base·2^(k−1), their sum bounded, reconnect_failed at most once, whatever registers succeed |
| RendezvousClient.CallsSettleInOrder | packages/core/src/signaling.ts:358-401 | calls settle in order of acceptance, none twice, none lost |
| RendezvousClient.WireIsSerial | packages/core/src/signaling.ts:358-401 | frames leave in call order on the socket of acceptance, with at most one unanswered |
| RendezvousClient.CloseSettlesEverything | packages/core/src/signaling.ts:551-560 | a close settles the pending and every queued call with an error and opens nothing, so none reaches a later connection |
| RendezvousClient.StallsWhenOpenFails | packages/core/src/signaling.ts:644-684 | after a failed open, or a close before the open, no event ever changes the state or opens a socket |
| RendezvousClient.LeavesConnectingIff | packages/core/src/signaling.ts:198-221 | in every run a connecting client can still leave `connecting` exactly while its socket is opening |
| RendezvousClient.StallsReachable | packages/core/src/signaling.ts:194-250 | both stalls occur two events after a fresh start |
| ClientEffects.EventsShow | packages/core/src/signaling.ts:180-684 | in every run each event shows the application and the connection exactly the outputs of one table: errors, pushes, state changes, reconnects and their delays |
| ClientEffects.StateFollowsShown | packages/core/src/signaling.ts:180-684 | the state is the one last shown; what opening, disconnecting, a register timeout and a close do to the socket and the resolver |
| ClientEffects.PendingIsSent | packages/core/src/signaling.ts:377-399 | in every run a call pending on an open connection has left on that socket, as the last request |
| ClientEffects.RequestTaken | packages/core/src/signaling.ts:358-399 | a ready client's request leaves at once on an open connection with a free slot, and queues last otherwise; any other client throws |
| ClientEffects.FrameSettles | packages/core/src/signaling.ts:489-530 | the awaited reply or an error envelope settles the pending call and sends the next; any other frame leaves requests alone |
| ClientEffects.AnsweredRun | packages/core/src/signaling.ts:180-401 | a run from the start in which a request is sent, answered and settled |
| ClientServer.LookupAnswered | packages/core/src/signaling.ts:258-269 | from the start, for every key, id and server with room: the lookup is sent and the server's answer settles it |
| ClientServer.RepliedWasSent | packages/core/src/signaling.ts:377-399 | a call settled with a reply had its request sent before |
| RequestReply.RepliedWasSent | packages/core/src/signaling.ts:377-399 | the same with any such server |
| ClientServer.EveryCallerGetsItsOwnReply | packages/core/src/signaling.ts:489-530 | the client on the rendezvous server's own wire, among any other sockets: every reply given to a caller was caused by that caller's request |
| ClientServer.OneRequestUnderWay | packages/core/src/signaling.ts:358-401 | there at most one request is unanswered, and an arriving reply answers the pending call |
| ClientServer.AnswersTheRequest | packages/rendezvous/src/server.ts:137-156 | a request of the client makes the server write the one reply its call awaits, or nothing (a close) |
| ClientServer.RepliesToNothingElse | packages/rendezvous/src/server.ts:137-156 | no other event makes the server write a reply to the client's connection |
| RequestReply.EveryCallerGetsItsOwnReply | packages/core/src/signaling.ts:489-530 | the same for any server that answers requests at most once, in order and in kind |
| RequestReply.OneRequestUnderWay | packages/core/src/signaling.ts:358-401 | at most one request is unanswered with any such server, and an arriving reply has the awaited kind |
| RequestReply.PushesPassBy | packages/core/src/signaling.ts:508-518 | pushes reach the listeners and no call, in any state |
| RequestReply.DeliveredReplyIsAnswer | packages/core/src/signaling.ts:520-527 | a reply at the head of the wire is the answer to the pending call |
| BulkBackpressure.BulkSide.SendBulkWithBackpressure | packages/p2p/src/room-session.ts:259-301 | sends at once at or below the threshold, else installs timer and listener |
| BulkBackpressure.BulkSide.OnBufferedAmountLow | packages/p2p/src/room-session.ts:292-299 | the listener's call resolves, uninstalls itself and sends |
| BulkBackpressure.BulkSide.OnTimeout | packages/p2p/src/room-session.ts:284-290 | the call rejects and the listener is cleared, whoever installed it |
| BulkBackpressure.SendsOnceSettlesOnce | packages/p2p/src/room-session.ts:259-301 | any concurrent calls: each settles at most once or still waits, and the frames sent are exactly those of the resolved calls, once each |
| BulkBackpressure.WaitsIff | packages/p2p/src/room-session.ts:276-299 | in every run a new call waits exactly when the buffer is above the threshold; else it settles at once with its frame the last one sent |
| BulkBackpressure.WakesAndTimeouts | packages/p2p/src/room-session.ts:283-299 | the low event sends the installed listener's frame and settles its call; a timeout settles its own call; either way the listener is gone |
| BulkBackpressure.BufferBound | packages/p2p/src/room-session.ts:276-299 | the buffer never exceeds the threshold plus one frame when the low event fires only at or below it |
| BulkBackpressure.OverwrittenOnlyTimesOut | packages/p2p/src/room-session.ts:254-257 | a waiting call whose listener was overwritten can, in every continuation, only time out |
| BulkBackpressure.SentLaterIff | packages/p2p/src/room-session.ts:254-299 | in every run a waiting call can still be sent, in some continuation, exactly when the installed listener is its own |
| BulkBackpressure.OverwrittenReachable | packages/p2p/src/room-session.ts:254-299 | a run of three calls, with any messages, of which the first is sent and the second waits without a listener of its own |
| BulkBackpressure.SerialKeepsOrder | packages/p2p/src/room-session.ts:254-257 | for a caller that waits for each call, the listener is never lost and frames leave in call order |
| FileSender.Sender.Send | packages/p2p/src/file-sender.ts:101-115 | refused unless idle with a bulk channel |
| FileSender.Sender.OnHashed | packages/p2p/src/file-sender.ts:120-151 | size, listener swap and offer, or failure when the offer cannot be sent |
| FileSender.Sender.HandleMessage | packages/p2p/src/file-sender.ts:181-208 | abort in any active state, accept or reject only while awaiting |
| FileSender.Sender.StartChunking | packages/p2p/src/file-sender.ts:216-284 | the loop with its reused buffer, run against any script of reads, sends and messages, follows the step function and terminates |
| FileSender.Sender.SendNextChunk | packages/p2p/src/file-sender.ts:233-250 | one turn: read into the buffer, send a fresh copy of what was read |
| FileSender.Sender.ReadInto | packages/p2p/src/file-sender.ts:233-237 | the first n places become the file's bytes at the position, the others keep stale bytes |
| FileSender.Sender.RestoreListener | packages/p2p/src/file-sender.ts:309-312 | installs the saved listener and forgets it |
| FileSender.ChunksFollowFile | packages/p2p/src/file-sender.ts:216-263 | for any read sizes chunks are numbered 0..n−1, at most chunkSize long and concatenate to the file up to bytesSent; file_done leaves exactly in `done`, after the whole file |
| FileSender.AtMostOneMoreChunk | packages/p2p/src/file-sender.ts:225-246 | after an abort is handled at most one more chunk leaves, in every continuation |
| FileSender.AbortOverriddenIff | packages/p2p/src/file-sender.ts:224-263 | an aborted transfer can still end in `done` exactly when no loop head with bytes left need come first |
| FileSender.AbortOverriddenReachable | packages/p2p/src/file-sender.ts:224-263 | a run from the start, for every non-empty file that fits one chunk, that is aborted, rejected and `done` |
| FileSender.ListenerRestoredIff | packages/p2p/src/file-sender.ts:216-312 | however a transfer ends, the application's listener is back exactly when the hash was computed and no abort was heard in the loop, and after a failed open exactly when one was; else null or the sender's listener remains |
| FileSender.PromiseResolvesIff | packages/p2p/src/file-sender.ts:181-263 | the promise resolves exactly when `done` was reached with no abort handled |
| FileSender.OpenFailureHangs | packages/p2p/src/file-sender.ts:216-217 | when the open fails only a peer abort ever settles the promise |
| FileSender.OpenFailureReachable | packages/p2p/src/file-sender.ts:196-217 | a run from the start, for every file, whose open fails and leaves the sender's listener installed and the promise pending |
| FileSender.StartsIff | packages/p2p/src/file-sender.ts:101-112 | in every run a transfer starts with the first send() on a session with a bulk channel, and only with that |
| FileSender.FirstAnswerDecides | packages/p2p/src/file-sender.ts:181-208 | in every run the first answer after the offer decides: none, waiting and listening; acceptance, and only that, the loop; rejection or abort, that error with the listener back |
| FileSender.FailureEnds | packages/p2p/src/file-sender.ts:147-151 | every failure ends the transfer with its own error, and a timeout, alone, aborts the peer |
| FileSender.AnyReadSizesComplete | packages/p2p/src/file-sender.ts:216-263 | for any read sizes an undisturbed transfer sends one chunk of each size, which make up the file, and resolves |
| ChunkPump.LoopWaitsIff | packages/p2p/src/room-session.ts:276-280 | in every run the loop waits in its send exactly when the buffer was above the threshold; else the bytes just read leave at once |
| ChunkPump.EachChunkSentOnce | packages/p2p/src/file-sender.ts:245-250 | chunk loop over backpressure: chunk i is the message of call i, sent exactly once, and the low event is always wired to the waiting call and its chunk |
| FileReceiver.Receiver.HandleFileOffer | packages/p2p/src/file-receiver.ts:175-214 | ignored unless idle; too large, auto-rejected, or put to the callback |
| FileReceiver.Receiver.OnDecided | packages/p2p/src/file-receiver.ts:216-260 | accept, refuse, or fail |
| FileReceiver.Receiver.HandleFileChunk | packages/p2p/src/file-receiver.ts:264-284 | strays ignored, a gap fails and aborts, otherwise written and hashed |
| FileReceiver.Receiver.HandleFileDone | packages/p2p/src/file-receiver.ts:288-306 | enters `verifying` under the source's guards |
| FileReceiver.Receiver.OnStreamEnded | packages/p2p/src/file-receiver.ts:307-331 | compares digests: rename, or mismatch with abort and deletion |
| FileReceiver.Receiver.OnRenamed | packages/p2p/src/file-receiver.ts:316-317 | moves the part file into place if it still exists |
| FileReceiver.Receiver.HandleFileAbort | packages/p2p/src/file-receiver.ts:335-344 | fails the current transfer in any state |
| FileReceiver.ReceivingIff | packages/p2p/src/file-receiver.ts:264-344 | in every run it is receiving exactly when an acceptance went out and no later event was an abort of the file, an out-of-sequence chunk of it or its file_done with a save path; and it has taken every chunk since |
| FileReceiver.OneOfferOnly | packages/p2p/src/file-receiver.ts:175-200 | it is idle exactly while only unanswerable too large offers came, and works on the first offer within the limit |
| FileReceiver.OfferAnswered | packages/p2p/src/file-receiver.ts:178-217 | the first offer that counts is refused for size, refused for want of a callback, or put to the callback |
| FileReceiver.DecisionAnswered | packages/p2p/src/file-receiver.ts:216-260 | the decision is told to the peer; only a told acceptance starts receiving |
| FileReceiver.AbortObeyed | packages/p2p/src/file-receiver.ts:335-344 | in every run an abort of the current file fails it in any state, drops the hash, ends the stream and starts the deletion |
| FileReceiver.GapFails | packages/p2p/src/file-receiver.ts:269-278 | a gap fails the transfer, deletes the part file and aborts the peer |
| FileReceiver.DigestDecides | packages/p2p/src/file-receiver.ts:300-330 | after file_done and the end of the stream the content is renamed exactly when its digest is the offered one; else failure and an abort |
| FileReceiver.StreamFailureHangs | packages/p2p/src/file-receiver.ts:303-306 | when the stream fails at its end, in every continuation nothing is put in place and only an abort ends the verifying |
| FileReceiver.FailedLeftIff | packages/p2p/src/file-receiver.ts:316-317 | `failed` is left only by a rename under way that still finds the part file |
| FileReceiver.ReceivedFileIsOffered | packages/p2p/src/file-receiver.ts:264-331 | any peer, any interleaving: a file in place is consecutive chunks' data and has the SHA-256 of an offer that was made and that the callback accepted, of claimed size within the limit |
| FileReceiver.PartIsDeleted | packages/p2p/src/file-receiver.ts:361-370 | in `failed` the part file is gone or being deleted, except when the accept could not be sent |
| FileReceiver.DoneLeftIff | packages/p2p/src/file-receiver.ts:335-338 | `done` is left by an abort of the same file and by nothing else |
| FileReceiver.FinalStays | packages/p2p/src/file-receiver.ts:316-344 | a file in place is never changed or removed in any continuation |
| FileReceiver.AbortRaceIff | packages/p2p/src/file-receiver.ts:316-343 | in every continuation of an abort during the rename the file gets into place exactly when the rename runs before the deletion |
| FileReceiver.AbortRacesRename | packages/p2p/src/file-receiver.ts:316-343 | runs from the start, for every content, with either outcome |
| FileReceiver.LengthHonouredIff | packages/p2p/src/file-receiver.ts:180-320 | in every run the length of a received file is the offered one, or within the limit, exactly when that is so of the content whose digest was offered |
| FileReceiver.SizeNotEnforced | packages/p2p/src/file-receiver.ts:180-196 | runs from the start that receive data of any length under an offer of any size within the limit |
| FileTransfer.WrittenIsPrefix | packages/p2p/src/file-receiver.ts:264-331 | every interleaving: what is written is a prefix of the sender's file; in place and `done` only the whole file |
| FileTransfer.GapUnreachable | packages/p2p/src/file-receiver.ts:269-284 | with an honest sender a delivered chunk is written or ignored, never a gap |
| FileTransfer.TimeoutStopsReceiver | packages/p2p/src/file-sender.ts:270-273 | in every run the sender's timeout abort, once delivered, stops the receiver and starts the deletion |
| FileTransfer.TimeoutReachable | packages/p2p/src/file-sender.ts:264-276 | a run from the start, for every non-empty file within the limit, with such a timeout |
| FileTransfer.OutcomeFollowsArrivals | packages/p2p/src/file-receiver.ts:288-331 | after file_done ended the receiving with k chunks: `done` only if they were all of the file's, sha256_mismatch only if not |
| FileTransfer.StreamEndDecides | packages/p2p/src/file-receiver.ts:307-331 | when the stream ends after k chunks the file is renamed exactly when k was all of them and they are the whole file, else it fails with sha256_mismatch |
| FileTransfer.SenderNeverAborted | packages/p2p/src/file-sender.ts:181-190 | with an honest receiver no abort is ever handled, so the listener is restored unless the hash failed |
| FileTransfer.OvertakenLoses | packages/p2p/src/file-receiver.ts:323-330 | file_done delivered before the last chunk ends in sha256_mismatch while the sender is done |
| FileTransfer.OvertakingIsReachable | packages/p2p/src/file-receiver.ts:288-331 | runs from the start, for every non-empty file that fits one chunk, that are lost or complete by the order of delivery alone |
| FileTransfer.HonestLength | packages/p2p/src/file-receiver.ts:180-320 | with an honest sender the received length is the offered size and within the limit |
| FileTransfer.InOrderCompletes | packages/p2p/src/file-receiver.ts:313-322 | the same messages with all chunks first end in `done` with the whole file |
| Fingerprint.BuildFingerprintPayload | packages/core/src/fingerprint.ts:17-43 | the array writes give fingerprint, key, big-endian time and nonce in 88 bytes, or the first length error |
| Fingerprint.SetBigUint64 | packages/core/src/fingerprint.ts:33-35 | eight bytes, most significant first, modulo 2^64 |
| Fingerprint.BigEndianInjective | packages/core/src/fingerprint.ts:33-35 | two times print alike exactly when they agree modulo 2^64 |
| Fingerprint.PayloadErrors | packages/core/src/fingerprint.ts:23-31 | a payload exists exactly for fields of the right lengths, and the first wrong one is reported |
| Fingerprint.PayloadInjective | packages/core/src/fingerprint.ts:37-42 | two payloads are equal exactly when all four fields are |
| Fingerprint.VerifiesIff | packages/core/src/fingerprint.ts:49-77 | a signature verifies for exactly the fields and key it was made with |
| SdpFingerprint.ExtractSDPFingerprint | packages/p2p/src/sdp-fingerprint.ts:14-43 | the line loop and the byte loop compute the reference scan, with its two errors |
| SdpFingerprint.FirstLineDecides | packages/p2p/src/sdp-fingerprint.ts:16-40 | the first sha-256 line decides, whatever follows |
| SdpFingerprint.ExtractErrors | packages/p2p/src/sdp-fingerprint.ts:31-42 | the error is that no line is a sha-256 line, or that the first one's digits are not 64 |
| SdpFingerprint.RoundTrip | packages/p2p/src/sdp-fingerprint.ts:14-43 | a printed fingerprint, upper or lower case, between any other lines, is read back |
| SdpFingerprint.RoundTripPadded | packages/p2p/src/sdp-fingerprint.ts:16-40 | the same with blanks or a carriage return around the line and any case of the algorithm's name |
| SdpFingerprint.ParsePairIs | packages/p2p/src/sdp-fingerprint.ts:35-38 | each byte is what it keeps of parseInt on the pair, for any two characters, NaN being 0 |
| SdpFingerprint.FromToHex | packages/p2p/src/rendezvous-relay.ts:208-267 | lenient hexadecimal decoding undoes the lower-case printing |
| RelayGate.Relay.OnSignalIn | packages/p2p/src/rendezvous-relay.ts:155-311 | dispatch: parse failure, description, candidate, unknown |
| RelayGate.Relay.OnDescriptionIn | packages/p2p/src/rendezvous-relay.ts:169-235 | the synchronous checks in their order; a verification starts only when all pass |
| RelayGate.Relay.OnVerificationEnds | packages/p2p/src/rendezvous-relay.ts:243-281 | discard and fail, or accept and flush |
| RelayGate.Relay.FlushIceCandidates | packages/p2p/src/rendezvous-relay.ts:143-153 | the loop hands over every pending candidate in order |
| RelayGate.CandidatesAccounted | packages/p2p/src/rendezvous-relay.ts:140-302 | verifications finishing in any order: arrivals = handed or discarded, in order of arrival, then pending; the session got exactly the handed ones in that order, each after an accepted description |
| RelayGate.NoLossIff | packages/p2p/src/rendezvous-relay.ts:244-280 | in every run no candidate is lost exactly when no verification is denied while candidates are pending; then every one is handed over once a description is accepted |
| RelayGate.LossIsReachable | packages/p2p/src/rendezvous-relay.ts:248-280 | for every key and fingerprint, two runs from the start that differ only in who finishes first: one loses the candidate |
| RelayGate.FinishOrderDecides | packages/p2p/src/rendezvous-relay.ts:248-275 | with one forged and one genuine description under way, who finishes first decides whether pending candidates arrive |
| RelayGate.PassesIff | packages/p2p/src/rendezvous-relay.ts:171-275 | an envelope passes all checks exactly when the expected key signed the SDP's own fingerprint, fresh on arrival |
| RelayGate.SessionIsTold | packages/p2p/src/rendezvous-relay.ts:155-281 | in every run, besides candidates, the session is told exactly one failure for each unparsable signal and each description that fails on arrival, and the acceptance or failure of each verification, in order and with the reason of the first failing check |
| RelayGate.AcceptedIsSigned | packages/p2p/src/rendezvous-relay.ts:234-280 | in every run each accepted SDP came in such an envelope |
| RelayGate.HonestPassesIff | packages/p2p/src/rendezvous-relay.ts:90-117 | what one relay signs, another accepts exactly when it expects that id, the key pair is the id's own, and the window holds |

## Left out

- libsodium, SHA-256, base64, JSON, CBOR frames: unseen libraries. Digests and signatures are symbolic; signatures and nonces enter the relay gate already decoded, sealed boxes and invite keys with their decoded size or text as parameters.
- Platform timing: an event is one callback with the promise continuations it releases. Each event reads the clock once.
- Non-integer and non-finite timestamps, and a relay payload that is the JSON value `null`.
- `toUpperCase` and `toLowerCase` outside ASCII, where a few letters (the long s, the dotless i, the sharp s, ligatures) become ASCII ones, and the difference between code points and UTF-16 units in string lengths.
- Base32.EncodeBase32: the accumulator's `|` is written as addition, which agrees because the low bits are zero; Shifts.OrLowBits states that.
- RendezvousServer.Server.HandleInviteCreate: the key is kept as the text it came in, where the source stores the decoded bytes.
- RendezvousServer.RedeemReply: so the granted key is that text, where the source encodes the bytes again; for canonical base64 they are the same.
- RendezvousServer.Server.DispatchRegister: a send that throws during the drain is not modelled; a failed send to an online target is.
- RendezvousServer.Server.HandleRegister: capabilities, registered_at, last_seen and federation size are not state here; nothing modelled reads them.
- RendezvousServer.Server.DispatchRequest: lookup and signal only read the registration index; the lookup reply's `home` field, which is always absent, is not modelled.
- RendezvousClient.Rendezvous.Connect: `_sign` and listeners are taken not to throw or call back into the client; one connection attempt's promise result is represented by the events it emits.
- FileSender.Sender.StartChunking: closing the file descriptor and the room's other listener writers are not modelled; the file does not change during the transfer.
- FileReceiver.Receiver.OnDecided: opening or writing the part file does not fail except at its end; waitForDone only reports the final state and is left out.
- RelayGate.Relay.OnSignalIn: a throwing acceptCandidate changes no gate state and is recorded as the call it is; candidates that are not strings are not modelled.
- FileTransfer.OutcomeFollowsArrivals: says nothing about when the disk operations run, so a transfer may stay in `verifying`.
- PeerSession, the connection manager and node-datachannel: callbacks whose guarantees are not in the repository; a call log and a buffered-byte counter stand for them.
- The room:hello handshake, invite word codes, CLI, configuration, identity storage, health route and federation stubs: easy or mere plumbing next to the rest.
