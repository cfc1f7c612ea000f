# foilen-box verification model

A Dafny model of the parts of foilen-box whose correctness is hardest to see from the code: the resumable tunnel session,
the replicated last-write-wins map, and five smaller cores. Check it with `dafny verify dfyconfig.toml`.

## What is modelled

**The tunnel session** (`realm/features/services`). One forwarded TCP connection survives any number of libp2p streams.
`TunnelCore` holds the fields guarded by `mu` and the regions of code that run under it; `TunnelProtocol` puts two ends and the
streams between them into a state machine whose steps are those regions and the moves of the network (a stream loses any suffix
at any time, frames in flight may still arrive after the sender detached, an apply may be under way while anything else
happens). `TunnelInvariant` and `TunnelSafety` carry the two-party invariant over every step; `TunnelTheorems` reads off
exactly-once delivery, window safety, fin ordering and back-pressure; `TunnelDrain` shows that an attached pair left alone
delivers and acks everything; `TunnelSession` is the session object itself, proved against those steps; `FrameCodec` is the
wire format.

Everything but back-pressure rests on one hypothesis, the *fence*: when a service attaches, the count it told the client is
still the number of bytes it has taken. `docs/design-realm.md:265-266` promises it, and `forceDetach` does wait for the apply under way
when it detaches. When the stream is already gone it returns at once (`session.go:149-152`), and the count can be read while a
payload is held. `TunnelUnfenced` proves that the fence is exactly what delivery needs, that it is exactly what keeps the client's
write loop from slicing out of range, and that for a handler that finds no stream it holds exactly when no payload was held as it
answered. `TunnelWitness` gives runs in which each step has a goroutine that can take it: the service's write fails while its
reader is held up by the local socket, and the session goes on to write a byte twice, or to panic. It also has a run for a second
departure from the design text: the handler of a resume hello that the client gave up on goes on late, before the client's reset
of that stream has reached it, finds bytes gone and shuts down a healthy session, which is not among the ends of a session listed
at `docs/design-realm.md:262-264`.

A fin is to deliver all data in flight before both ends close (`docs/design-realm.md:263-264`). `TunnelFins` and `TunnelClose` prove it for
every run in which nothing is read locally once the fin is due: the loops run on past the first close until both ends are closed,
with everything received. `pumpLocal` does not check for that: a byte that it had read when the fin came, and appends after its own
end's fin, is lost, and `FinDecides` says exactly when. A loss after the first close truncates exactly when it drops data.
`TunnelWitness` has a run for either.

**The replicated map** (`realm/features/maps`). `MapReplica` is the merge rule as a function with its algebra and its change events; `MapStore` is
the store with its two tables, cursors and notifications; `MapFlood` bounds the flood of relayed pushes and `MapConverge` proves
agreement once it is over; `MapCatchUp` is the subscribe exchange; `MapGossip` has both in one network with lost pushes and
changing subscriptions, and proves agreement from exchanges alone. Some things hold less often than one would hope:

- The store accepts ties (`maps/store.go:292`), so two writes of a key in one millisecond are taken and relayed over each other. Merging
  is commutative if and only if ties carry equal entries. A flood in which no delivery replaces content at an equal time dies
  out; with ties it always does where no subscription path comes back without turning round, as in a tree (`MapAcyclic`), but on
  a triangle two writes chase each other for ever, and two nodes whose pushes cross end up with each other's value (`MapTies`).
- A re-post of the same content with a newer time is stored but not broadcast (`maps/store.go:297`), so two nodes can be quiet and
  disagree. The next exchange mends that if and only if the subscriber's cursor is below the silent time (`MapRepost`).
- An event that reaches the responder late, below the requester's cursor, is not offered again. The design text
  (`docs/design-realm.md:198`) says that a missed push is caught up on the next subscribe: for such an event it never is, by any
  number of exchanges with that peer that find the same version there, unless somebody else brings it. The same goes for an
  event that the requester fails to store, since the cursor moves past it all the same (`maps/feature.go:592-604`).
- The design text (`docs/design-realm.md:204-205`) also says that only a real content change is persisted; the code persists every entry
  that is not older, and the model follows the code.

**Smaller cores.** `Ring`: the connection ring and its trimming. `AnnexB`: the H.264 byte-stream scanner and access-unit
grouping. `DnsCrawl` (with `Ordering`): the worklist crawl and its sorted, deduplicated list. `PeerStore`: the peers and their
merged address lists. `SyncList`: the keyed reconciliation of page elements, where one element per item is left exactly when no two
children shared a key.

## Model

| member | source | states |
|---|---|---|
| TunnelTheorems.ExactlyOnce | realm/features/services/session.go:332-361 | Over every run with fenced resumes, what one end wrote locally is a prefix of what the other end read, and equals its first `recv` bytes while the local connection lives |
| TunnelTheorems.WindowIsSafe | realm/features/services/session.go:75-84 | In every reachable state `sendBase <= peer.recv <= sendBase + len(sendBuf)`, the buffer is the read history from `sendBase`, and on an attached stream the write loop's slice is in range |
| TunnelTheorems.MissingBytesOnlyWhenStale | realm/features/services/session.go:75-79 | Between honest ends `attach` reports missing bytes exactly when the told count is below `sendBase`; never to a client and never on the newest stream |
| TunnelTheorems.LoopsDetachOwnStream | realm/features/services/session.go:132-145 | In every reachable state, the end of a stream's loops detaches that stream if it is the one attached, and changes nothing once it was replaced or the session closed |
| TunnelTheorems.FinAfterEverything | realm/features/services/session.go:377-399 | When a fin is handled the peer has received all that was buffered when it was written, and the whole history if the writer's local read had ended, whatever fins were lost before |
| TunnelTheorems.StepKeepsBound | realm/features/services/session.go:198-222 | Every step, fenced or not, keeps `len(sendBuf) < maxUnacked + frameMax` and `sendBase + len(sendBuf)` equal to the bytes read; an open end reads on exactly while less than 1 MiB is unacked |
| TunnelTheorems.BackPressure | realm/features/services/session.go:198-222 | Over whole runs: no unacked buffer ever reaches 1 MiB + 32 KiB |
| TunnelTheorems.AnswerDecidesFence | realm/features/services/session.go:120-156 | For a handler that answers while the service has no stream, with no other service attach before its own: the attach is fenced if and only if no payload was held at the answer, whatever else happens in between |
| TunnelSafety.StepKeepsInv | realm/features/services/session.go:69-399 | Every enabled, fenced step keeps the two-party invariant |
| TunnelSafety.ClientIsFenced | realm/features/services/feature.go:429-463 | The client's own attach needs no hypothesis: its count is always current |
| TunnelSafety.AttachKeepsBoth | realm/features/services/session.go:69-98 | An attach with a current count trims and rewinds both directions so that the replay continues where the peer stands |
| TunnelUnfenced.FenceIsExact | realm/features/services/session.go:147-156 | For a service about to attach to the newest stream, whether the client has joined it already and sent on it or not: the attach is fenced if and only if every continuation keeps the delivered bytes a prefix of the bytes read |
| TunnelUnfenced.UnfencedOverruns | realm/features/services/feature.go:207-228 | From an unfenced attach there is a run that delivers exactly as many bytes too many as were held when the count was told |
| TunnelUnfenced.UnfencedAckPanics | realm/features/services/session.go:363-375 | From an unfenced attach, with the client able to read, or a payload held that it has not sent again, there is a run to a state in which the client's attached write loop slices out of range |
| TunnelUnfenced.RunKeepsFit | realm/features/services/session.go:252-257 | In every run no data frame on its way is longer than `frameMax` |
| TunnelUnfenced.FenceKeepsSlices | realm/features/services/session.go:252-257 | For a service about to attach to a client that can be acked and read: the attach is fenced if and only if no continuation makes the client slice out of range |
| TunnelUnfenced.AnswerDecidesDelivery | realm/features/services/feature.go:207-228 | Delivery, and the client's slices, are safe from such a handler's attach on if and only if no payload was held as it answered |
| TunnelWitness.UnfencedIsReachable | realm/features/services/session.go:149-152 | A run in which each step has a goroutine that can take it, from the start to an unfenced attach with a payload held |
| TunnelWitness.DuplicateHappens | realm/features/services/session.go:332-361 | That run goes on until the service has written twice the one byte that the client read |
| TunnelWitness.PanicHappens | realm/features/services/session.go:252-257 | It goes on, in another way, until the client slices out of range |
| TunnelWitness.StaleHelloIsReachable | realm/features/services/feature.go:207-228 | Such a run of two honest ends in which the late handler of an abandoned resume hello detaches a working stream and gets the missing-bytes error |
| TunnelWitness.LateReadIsLost | realm/features/services/session.go:198-222 | Such a run in which the pump appends the byte it had read only after its own fin is out: both ends close and the byte is never delivered |
| TunnelWitness.LossBehindClose | realm/features/services/session.go:272-280 | Such a run in which data and fin behind the first close are lost: whatever happens then, the client never gets the byte |
| TunnelDrain.DrainStepLightens | realm/features/services/session.go:232-282 | Without new input, break or handshake, every step of the loops lowers one measure of unsent bytes, frames, applies and acks |
| TunnelDrain.DrainEnds | realm/features/services/session.go:232-330 | No run of the loops alone is longer than that measure |
| TunnelDrain.DrainDeliversAll | realm/features/services/session.go:226-230 | When no such step is enabled, both buffers are empty and everything read was received, acked and, on a live connection, written |
| TunnelDrain.DrainCompletes | realm/features/services/session.go:232-330 | From every connected state there is such a run to the quiet state, or to the first close by the fins |
| TunnelFins.StepKeepsFins | realm/features/services/session.go:214-218 | If no byte is read locally once a fin is due, every step keeps: each fin in flight stands after the last byte its writer reads, its taker has all of them, and on an uncut stream a fin sent is in flight or taken |
| TunnelClose.StepKeepsEnding | realm/features/services/session.go:377-399 | Every step of the loops, past the first close too, keeps all data of a closed end, and its fin behind it, in front of its peer |
| TunnelClose.LoopsEnd | realm/features/services/session.go:232-330 | No run of the loops of both ends, closes included, is longer than a measure of its first state |
| TunnelClose.LoopsComplete | realm/features/services/session.go:232-330 | From every such state there is a run of the loops to one in which none can go on |
| TunnelClose.SessionEnds | realm/features/services/session.go:264-282 | Wherever the loops come to rest, both ends are closed if a fin was due on either, and else neither; each end has received all that the other read, and written it if its local connection accepted what it was given |
| TunnelClose.FinDecides | realm/features/services/session.go:377-399 | What an end has written when it handles a fin it has written for good, and that is all its peer ever reads if and only if nothing is read after the fin |
| TunnelClose.LossTruncates | realm/features/services/session.go:158-182 | After one end has closed, a loss on the way to the other leaves it with exactly the data kept, so it truncates if and only if it drops data |
| FrameCodec.NumberOfBigEndian | realm/features/services/session.go:244-265 | Decoding inverts the fixed-width big-endian encoding |
| FrameCodec.OnTheWire | realm/features/services/session.go:21-23 | The bytes of each frame: `D`, four bytes of length, payload; `A`, eight bytes of offset; `X`; numbers with the most significant byte first |
| FrameCodec.ReadEncoded | realm/features/services/session.go:284-330 | One turn of the parser on an encoded frame yields that frame and leaves the rest |
| FrameCodec.StopsWhen | realm/features/services/session.go:284-330 | The parser calls a length oversized if and only if it is above 32768, a type unknown if and only if it is none of the three letters, and a read failed only at the end |
| FrameCodec.ReadCutShort | realm/features/services/session.go:284-330 | A frame cut at any byte is never taken for a frame |
| FrameCodec.ReadAllOfPrefix | realm/features/services/session.go:284-330 | On a stream cut at any byte the parser recovers exactly the frames that arrived whole |
| FrameCodec.ReadAllOfAll | realm/features/services/session.go:284-330 | On the whole stream it recovers exactly the frames written, and then stops at its end |
| FrameCodec.HandshakeNewline | realm/features/services/feature.go:417-427 | Dropping one leading newline never costs a frame byte; left in place it would end the session at once |
| TunnelSession.TunnelSession.AttachStream | realm/features/services/session.go:69-98 | Accepts exactly the offsets inside the buffer: drops what the peer has, rewinds to the rest, counts the ack as told, owes its fin again and starts a new generation; otherwise changes nothing |
| TunnelSession.TunnelSession.DetachGeneration | realm/features/services/session.go:132-145 | Detaches an open session from its stream if the generation is the attached one; for any other generation nothing changes |
| TunnelSession.TunnelSession.ForceDetach | realm/features/services/session.go:147-156 | Detaches an open session from whatever stream it has; a closed or detached one does not change |
| TunnelSession.TunnelSession.Shutdown | realm/features/services/session.go:158-182 | Closes once, and the local socket takes no more bytes |
| TunnelSession.TunnelSession.ResumeSession | realm/features/services/feature.go:207-228 | A closed session refuses; otherwise it detaches, tells its count, and attaches or shuts down |
| TunnelSession.TunnelSession.PumpLocal | realm/features/services/session.go:198-224 | Appends the socket's reads in order, none dropped, stops only when full or closed, and queues the fin at the end of input |
| TunnelSession.TunnelSession.WriteLoop | realm/features/services/session.go:232-282 | Writes the encoding of one ack if due, the unsent bytes in frames of at most `frameMax`, then the fin, and shuts down if both fins are out |
| TunnelSession.TunnelSession.ApplyData | realm/features/services/session.go:332-361 | The protocol's take and finish, with a short write marking the connection dead |
| TunnelSession.TunnelSession.ApplyAck | realm/features/services/session.go:363-375 | Trims the buffer for an ack inside it, and ignores any other |
| TunnelSession.TunnelSession.ApplyFin | realm/features/services/session.go:377-399 | Records the peer's fin, queues our own, and shuts down when ours was out |
| TunnelSession.TunnelSession.ReadLoop | realm/features/services/session.go:284-330 | Handles exactly the frames that arrived whole, in order, until one ends the loop, and then leaves no stream attached; the loop of a replaced stream changes nothing, whatever it reads |
| TunnelSession.WriteOneIsFirst | realm/features/services/session.go:232-282 | Each turn of the write loop emits the first of the outgoing frames and leaves the others |
| TunnelSession.AppliedIsTakeThenFinish | realm/features/services/session.go:332-361 | `applyData` run at once is the protocol's Take step followed by its Finish step |
| TunnelSession.WireDelivers | realm/features/services/session.go:232-361 | One end's write loop into the other's read loop, through the wire bytes: the unsent bytes all count, once and in order, the local connection gets as many of them as it accepts and is dead if that is not all, and the fin takes effect after them |
| MapReplica.LastWriteWins | realm/features/maps/store.go:264-327 | After any sequence of updates each key ever written holds the last-applied among its newest entries, and no other key exists |
| MapReplica.OneWinner | realm/features/maps/store.go:292 | That entry is unique, so the two facts determine the map |
| MapReplica.MergeIgnoresOrder | realm/features/maps/store.go:264-327 | If ties carry equal entries, order and duplication of updates do not matter |
| MapReplica.MergeIsJoin | realm/features/maps/store.go:264-327 | Merging one log after another is joining the two maps |
| MapReplica.JoinAssociates | realm/features/maps/store.go:292 | The join is associative |
| MapReplica.JoinCommutes | realm/features/maps/store.go:292 | It is idempotent, and commutative if and only if ties carry equal entries |
| MapReplica.ChangeMirrors | realm/features/maps/store.go:329-359 | A notification fits a listener's copy of the live map and turns it into the new live map; no notification means no visible change |
| MapReplica.ChangesMirror | realm/features/maps/store.go:329-359 | Folding all notifications of any update sequence gives the live map |
| MapReplica.RepostIsNoChange | realm/features/maps/store.go:297 | An update with the value and deletion that a key has is no change, whatever its time, origin, nonce and signature, for live and deleted keys alike |
| MapReplica.NoChangeKeepsContent | realm/features/maps/store.go:297 | An accepted update that is no change leaves value and deletion of its key |
| MapReplica.ChangeChangesContent | realm/features/maps/store.go:297 | One that is a change is stored, and the value or the deletion of its key differs |
| MapStore.Store.ApplyEvent | realm/features/maps/store.go:264-360 | Merges the entry into that map only, keeps both tables in agreement, reports a change if and only if the entry is not older and value or deletion differ, and notifies as the change rule says |
| MapStore.Store.GetMap | realm/features/maps/store.go:174-183 | The live entries, exactly |
| MapStore.Store.EventsSince | realm/features/maps/store.go:364-386 | The log entries newer than the cursor, each once, oldest first |
| MapStore.Store.RecordFromPeer | realm/features/maps/store.go:396-430 | A cursor never moves back, and no other cursor moves |
| MapStore.Store.DeleteMap | realm/features/maps/store.go:212-243 | Purges one map, both tables, and no other |
| MapStore.ReplayRebuilds | realm/features/maps/store.go:364-386 | Replaying the compacted log into an empty map gives back the entries it was taken from |
| MapFlood.DeliverDescends | realm/features/maps/feature.go:653-671 | A delivery that does not replace content at an equal time lowers a potential of timestamps still to rise and pushes in flight |
| MapFlood.FloodTerminates | realm/features/maps/feature.go:513-537 | So no sequence of such deliveries, in any order, on any finite graph, is longer than that potential |
| MapFlood.SameContentNeverTied | realm/features/maps/store.go:292-297 | If one key at one time has one content, no delivery of any flood is tied |
| MapAcyclic.AcyclicFloodEnds | realm/features/maps/feature.go:513-537 | Whatever the ties: where no subscription path comes back to an edge without turning round, no flood is longer than a bound computed from its first state |
| MapAcyclic.ForestsAreAcyclic | realm/features/maps/feature.go:517-537 | Symmetric subscriptions along a forest are such a graph |
| MapTies.Endless | realm/features/maps/store.go:292 | Three nodes subscribed to each other, two writes at one time, no loss: from the state they reach, floods of any length |
| MapTies.TriangleIsCyclic | realm/features/maps/feature.go:517-537 | So three such nodes are not such a graph |
| MapTies.CrossingDiverges | realm/features/maps/store.go:292 | Two nodes write at one time and their pushes cross: all is quiet, no timestamp was raised silently, and they disagree |
| MapConverge.PlainRunsConverge | realm/features/maps/feature.go:634-671 | On a symmetric, connected, lossless graph, if no update raised a timestamp silently or replaced content at an equal time, all nodes agree once no push is left, after any writes in any order |
| MapConverge.VersionsStayPlain | realm/features/maps/store.go:292-297 | If versions of a key differ in content and one time has one content, every run is of that kind |
| MapConverge.Converges | realm/features/maps/feature.go:634-671 | So with such versions all nodes agree once no push is left |
| MapConverge.SilentRepost | realm/features/maps/feature.go:443-458 | A local write leaves a settled subscription covered if and only if it is rejected, relayed, or known to the subscriber already |
| MapConverge.RepostDiverges | realm/features/maps/store.go:297 | Two nodes, three writes at distinct times, no push lost: they end quiet and disagree |
| MapRepost.ExchangeCloses | realm/features/maps/feature.go:577-607 | A version the requester lacks comes with the next exchange if and only if it is above the cursor |
| MapRepost.SilentGap | realm/features/maps/store.go:297 | A silent re-post leaves the subscription uncovered; the next exchange closes the gap if and only if the cursor is below its time, and otherwise the subscriber lacks it in the sense in which such gaps stay |
| MapRepost.RepostIsMended | realm/features/maps/feature.go:577-607 | A run of two stores in which the next exchange mends the disagreement after a re-post |
| MapRepost.RepostStays | realm/features/maps/feature.go:577-607 | A run of two stores in which the cursor is past the silent time and the disagreement stays |
| MapGossip.GossipAgrees | realm/features/maps/feature.go:554-671 | With pushes lost and subscriptions changing: once writing has stopped and the exchanges in time have passed everyone's news on to everyone, all nodes have the same times, and the same content if one key at one time has one content |
| MapGossip.ThereAndBack | realm/features/maps/feature.go:554-607 | Exchanges along a path through all nodes, there and back, pass everyone's news on to everyone |
| MapGossip.PathGossipAgrees | realm/features/maps/feature.go:554-607 | So after such a round in time all nodes have the same times |
| MapGossip.SubscribeRelays | realm/features/maps/feature.go:595-598 | An exchange leaves one push for each newer event that changed the requester's map and each subscriber other than the peer, and no other push |
| MapGossip.LastDecides | realm/features/maps/feature.go:579-607 | Over any run a subscription stands if and only if the last event about it is an exchange, which then also left its cursor |
| MapGossip.LossTakesOne | realm/features/maps/feature.go:539-552 | A lost push is gone, once, and nothing else happens |
| MapCatchUp.SubscribeToPeer | realm/features/maps/feature.go:577-607 | The requester's map becomes its join with what was offered and verified, the cursor moves exactly to the newest event received, and what is relayed is exactly what verified and changed the map |
| MapCatchUp.ExchangeDominates | realm/features/maps/feature.go:592-600 | After an exchange the requester has at least the responder's version of a logged key if and only if its event verified and was stored, or it had that already |
| MapCatchUp.DroppedIsLacking | realm/features/maps/feature.go:592-604 | An event that did not verify or was not stored leaves a gap below the new cursor if and only if the requester lacked its version |
| MapCatchUp.LateEventIsMissed | realm/features/maps/feature.go:577-607 | An event new at the responder leaves a gap below the cursor if and only if it is accepted there, no newer than the cursor and newer than what the requester holds |
| MapCatchUp.MissedForGood | realm/features/maps/feature.go:577-607 | Over any number of later exchanges with that peer, while the peer's version of the key stays the same, a version lacking below the cursor stays lacking if and only if nobody else brings it |
| MapCatchUp.OlderEventIsLost | realm/features/maps/feature.go:577-607 | A run of three stores: an older event from a third node reaches the responder after an exchange, and after the next exchange the requester still lacks it |
| MapCatchUp.SubscribeIsExchange | realm/features/maps/feature.go:577-607 | What `SubscribeToPeer` promises when every event is valid is the exchange step of the histories below, in time |
| MapCatchUp.NewIsCaughtUp | realm/features/maps/store.go:390-394 | A new requester starts without a gap if and only if all times at the responder are positive |
| MapCatchUp.CatchesUp | realm/features/maps/feature.go:712-723 | Over any history of local writes, timely events at the responder and exchanges, the last exchange leaves the requester at least as new on every key |
| MapCatchUp.PeerMergesItsOwn | realm/features/maps/store.go:264-327 | Over any history the responder merges its own events and no others |
| Ring.RingMemberIds | realm/connection_ring.go:59-71 | The sorted ids of the peer itself and of all known members of the group |
| Ring.RemovedFromRing | realm/connection_ring.go:59-71 | Once a group name is gone from every peer its ring has no other member, and every other ring is as it was |
| Ring.MembersDistinct | realm/connection_ring.go:59-71 | The ring has no duplicates if the known peers have distinct ids, none of them the peer's own |
| Ring.SortedIsUnique | realm/connection_ring.go:59-71 | Every member computes the same ring from the same members |
| Ring.RingCandidateOrder | realm/connection_ring.go:73-82 | The modular walk visits all other members once, nearest first in its direction |
| Ring.ConnectRingCandidates | realm/connection_ring.go:93-126 | Finds the first `want` online candidates |
| Ring.RequiredPeers | realm/connection_ring.go:19-57 | The union of what both directions found |
| Ring.AroundOnline | realm/connection_ring.go:73-82 | The online candidates of a member are the ring of online members as seen from it |
| Ring.RequiredIsNear | realm/connection_ring.go:93-126 | The required links are exactly those at distance one or two on that ring |
| Ring.RequiredCount | realm/connection_ring.go:17-57 | With n members online, each of them requires min(4, n - 1) links |
| Ring.RequiredIsMutual | realm/connection_ring.go:93-126 | One end requires a link if and only if the other does |
| Ring.DisconnectExtraPeers | realm/connection_ring.go:128-147 | Closes exactly the links to group peers that are neither required nor in use |
| Ring.TrimmingIsMutual | realm/connection_ring.go:128-147 | So trimming never closes a link the other end requires, also with several groups |
| Ring.Resilient | realm/connection_ring.go:59-126 | Whatever subset is online, the required links connect any two of them, and still do when any third disappears |
| AnnexB.TrimTrailingZeros | internal/camera/annexb.go:61-66 | Cuts exactly the zeros at the end |
| AnnexB.TrimIsNoOp | internal/camera/annexb.go:80-92 | After the counted zeros are cut, nothing is left to trim |
| AnnexB.ScanAnnexBNals | internal/camera/annexb.go:68-100 | The loop emits what the scanner function does, with `zeros` always the trailing zero run |
| AnnexB.ScanInvertsEncode | internal/camera/annexb.go:68-100 | Scanning any encoding of proper units, with start codes of any length, emits all of them but the last, in order |
| AnnexB.EmittedAreClean | internal/camera/annexb.go:68-100 | On any input, no emitted unit holds a start code or ends in a zero |
| AnnexB.TopBitsDoNotMatter | internal/camera/annexb.go:23-32 | A unit is a coded slice if and only if the low five bits of its first byte are 1 to 5; the top three do not matter |
| AnnexB.GroupStep | internal/camera/annexb.go:38-54 | One unit keeps the partition: emitted access units and pending units give back the non-empty units, each access unit having one coded slice, its last |
| AnnexB.ReadAnnexBUnits | internal/camera/annexb.go:34-59 | On any input, up to the access unit on which the consumer fails, if it does: the units are partitioned in order, the last unit of each access unit has a first byte whose low five bits are 1 to 5, and no other unit of it, and none pending, has |
| DnsCrawl.LessTrichotomy | internal/troubleshooting/model/model.go:15-39 | Exactly one of less, equal and greater holds |
| DnsCrawl.LessTransitive | internal/troubleshooting/model/model.go:15-32 | The order is transitive |
| DnsCrawl.LessRespectsEqual | internal/troubleshooting/model/model.go:34-39 | Equal records, which may differ in time to live, are interchangeable in it |
| DnsCrawl.FieldsDecide | internal/troubleshooting/model/model.go:15-39 | Name, type, details, priority, weight and port decide in this order, each whatever those after it are; an absent number is a zero and the time to live decides nothing |
| Ordering.DecidedAtFirstDifference | internal/troubleshooting/model/model.go:16-24 | One string is less than another if and only if it is a proper prefix, or has the smaller character where they first differ |
| DnsCrawl.DedupSorted | internal/troubleshooting/dns/dns.go:182-193 | A strictly increasing list of some of the records that represents all of them |
| DnsCrawl.DedupIsDetermined | internal/troubleshooting/dns/dns.go:182-193 | Two such lists agree position by position up to equality, however the sort treats equal records |
| DnsCrawl.NumbersInTheirPlaces | internal/troubleshooting/dns/dns.go:137-171 | An MX or SRV record is listed with its own priority, weight and port, each in its place, and its target without the final dot |
| DnsCrawl.FoundHolds | internal/troubleshooting/dns/dns.go:117-176 | An entry is found if and only if some record of the answer agrees with it field by field |
| DnsCrawl.QueryOne | internal/troubleshooting/dns/dns.go:106-176 | An entry is returned if and only if it lists a record of the answer: the host's name, the kind, the address, text or target, its own priority, weight, port and time to live. A name is discovered if and only if it is the target of an alias, mail or service record and ends with the root |
| DnsCrawl.Crawl | internal/troubleshooting/dns/dns.go:50-96 | If the reachable names are finite the loop ends, with replies in any order; it visits the least set that holds the seeds and is closed under discovery, and asks about each name once per type |
| DnsCrawl.QueryUsingServer | internal/troubleshooting/dns/dns.go:44-97 | The result is strictly increasing, each of its entries lists a record answered for a name of that set, field by field, and every such record is represented |
| DnsCrawl.CrawlStaysInside | internal/troubleshooting/dns/dns.go:139-171 | Every name visited ends with the domain asked about |
| PeerStore.MergeAddresses | realm/peers/store.go:76-105 | The first occurrences in the lists of broadcast, announce, dht and then all other sources by name |
| PeerStore.MergedIsDetermined | realm/peers/store.go:76-105 | There is only one such list |
| PeerStore.MergedIsUnion | realm/peers/store.go:76-105 | It has no duplicates and holds exactly the union of the sources |
| PeerStore.MergedFollowsPriority | realm/peers/store.go:76-105 | An address known to an earlier source precedes one that only later sources know |
| PeerStore.SourcesByName | realm/peers/store.go:52-105 | The same by name: a broadcast address precedes all that broadcast does not know, an announced one all that only dht and others know, a dht one all that only others know, and others come by name |
| PeerStore.SourceKeepsOrder | realm/peers/store.go:76-105 | Among what one source adds, addresses stand in the order of its list |
| PeerStore.Store.Upsert | realm/peers/store.go:54-74 | Replaces one source's list and re-merges, or keeps the addresses when no source is given; every cache stays the merge of its sources |
| PeerStore.Store.SetConnected | realm/peers/store.go:120-132 | Changes only that peer's flag and, on connect, its last-seen time |
| PeerStore.Store.SetHostnameDescription | realm/peers/store.go:134-146 | Changes only the described fields of that peer |
| PeerStore.Store.SetAnnouncedAddresses | realm/peers/store.go:148-163 | Replaces the announced list of a known peer and re-merges |
| PeerStore.Store.ClearDiscoveredAddresses | realm/peers/store.go:167-187 | Drops broadcast and dht of one peer, re-merges, and reports whether the peer was known |
| PeerStore.Store.ClearAllDiscoveredAddresses | realm/peers/store.go:189-204 | The same for every peer |
| PeerStore.Store.AddGroupName | realm/peers/store.go:206-220 | Adds a name once, to a known peer |
| PeerStore.Store.RemoveGroupName | realm/peers/store.go:222-235 | Afterwards a peer is in a group if and only if it was and the group is not the one removed; its other names keep their number and order, and a name nobody has changes nothing |
| PeerStore.Store.PruneStale | realm/peers/store.go:237-249 | Removes and returns, each once, exactly the disconnected peers last seen before the cutoff; the others stay as they were |
| PeerStore.Store.Remove | realm/peers/store.go:251-262 | Removes a known, disconnected peer only |
| PeerStore.Store.ResetAllConnected | realm/peers/store.go:264-271 | Clears every flag and nothing else |
| PeerStore.ClearKeepsKnown | realm/peers/store.go:167-187 | Clearing drops the lists of broadcast and dht and keeps every other list and field, so exactly the addresses that another source also knows stay |
| SyncList.InsertAtAnchor | internal/webserver/web/js/util.js:41-55 | The anchor separates placed from unplaced children, so an insertion before it extends the placed ones |
| SyncList.PlaceOne | internal/webserver/web/js/util.js:42-55 | One turn of the loop keeps that, both when the element is at the anchor and when it is moved |
| SyncList.Container.SyncList | internal/webserver/web/js/util.js:34-61 | The children become one element per item in item order, then the children hidden by a later sibling with the same key; keys and contents are the items'; an element is inserted exactly when it was not at the anchor |
| SyncList.OnePerItem | internal/webserver/web/js/util.js:35-38 | None is left behind if and only if no two children had the same key |
| SyncList.ReusesChild | internal/webserver/web/js/util.js:42-50 | With distinct keys, an item that has a child keeps it and any other gets its new element |
| SyncList.SurvivorsStay | internal/webserver/web/js/util.js:57-60 | A child stays if and only if some item has its key |
| SyncList.SyncAgainIsStill | internal/webserver/web/js/util.js:34-61 | Showing the same items again creates and removes nothing, inserts no element, and ends with the same list |
| SyncList.RepeatedKeyLeavesElement | internal/webserver/web/js/util.js:35-38 | A concrete list of items with a repeated key after which the next call leaves one element too many |

## Left out

- Scheduling and timers of the tunnel: `resumeGrace`, retry delays and goroutine order are nondeterministic steps, so nothing is said about how long anything takes.
- Socket and stream calls: writing a frame is one step with the change of state it follows, the stream being a queue that may lose any suffix; a service reads its count at any moment after the hello, which allows more runs than the code.
- 64-bit wrap-around of the byte offsets: they are unbounded numbers, except in the frame codec.
- TunnelSession.TunnelSession.PumpLocal: where the real loop waits for room, or drops the read it holds because the session closed, the method returns before taking that read.
- TunnelDrain.DrainCompletes: stops at the first close by the fins; the rest of an orderly end is in TunnelClose.
- After a loss that cuts off the fin itself, the end still open closes when its resume is refused or `resumeGrace` runs out; that is a timer here.
- A closed end leaves what it has sent readable, and does not make the writes of its peer fail; TunnelClose.SessionEnds rests on that.
- TunnelUnfenced.FenceIsExact: says nothing about a client that had joined the newest stream and left it again, nor about bytes read behind a fin that is on its way there.
- TunnelUnfenced.FenceKeepsSlices: says nothing about a client whose input has ended or whose buffer is full, where an ack beyond its buffer is ignored.
- TunnelWitness: covers some of the situations in which a goroutine can take a step, not all; in the late-hello run the reset of the abandoned stream is still on its way.
- The proxy and session tables of the service feature, the accept loop, the listening port and the refusal messages.
- Misbehaving peers in the tunnel: both ends follow the code.
- Event signatures, group challenges and encryption: whether an event of a response verifies, and is stored without a database error, is a predicate of the event.
- Errors of the database and of JSON, and the point between two writes at which `DeleteMap` could be interrupted: the two tables are maps updated together.
- Sanitising of map names: a map is identified by its group and store name, so two names that sanitise alike are not conflated.
- Listener callbacks run after unlocking and may be delivered out of order; the model keeps the history in the order of the updates.
- Purges, desired-store reconciliation and the hourly sweep in the convergence and catch-up results.
- MapConverge.Converges: pushes are not lost there, and subscriptions do not change; MapGossip is about runs in which they are and do.
- MapCatchUp.SubscribeToPeer: one store per exchange, where the code batches several with separate cursors; the responder does not change during the exchange.
- Ring: ids are integers, since only their order matters, and who is online does not change while links are being chosen; `isRingNeighbor` and the reconnect attempt are not part of this model.
- AnnexB.ReadAnnexBUnits: is not cancelled by a context; the RTP publisher and parameter sets are left out.
- DNS messages, name encoding and time-outs: a server is a function from name and type to an answer or to nothing, the same each time it is asked.
- PeerStore.Store.RemoveGroupName: filters a fresh list, where the code reuses the backing array of the old one, so aliasing with earlier snapshots is not modelled; peers loaded from disk are assumed to be consistent.
- Strings are ordered by code unit, which is the order of their bytes for the names at hand.
- SyncList.Container.SyncList: `create` is assumed to return an element that is not on the page, and neither callback to touch other elements; the container is assumed to hold elements only, since `firstChild` and `nextSibling` would also stop at text nodes while the table is filled from `children`.
- `syncCells`, `syncSelectOptions`, the web and Android interfaces, camera capture, relays, discovery, WHOIS, speed tests and configuration: input and output, or easy.
