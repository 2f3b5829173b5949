# beaconprobe, modelled and proved in Dafny

beaconprobe runs several probe instances against the Ethereum peer-to-peer network. The instances share one
table of peer owners so that their peer sets stay disjoint, dial the peers they own under a semaphore and a
peer cap, buffer attestations until their slot has ended, join them with the first block of the slot, and
write what a crawl has found. This project models that logic and proves what it keeps over every run.

`dafny verify dfyconfig.toml` checks everything.

| file | models |
|---|---|
| `SharedPeerSets.dfy` | the sticky owner map with its round-robin counter (`node/sharedpeerset.go`) |
| `PeerFinders.dfy` | per-instance buckets and random sampling (`node/peerfinder.go`) |
| `Gaters.dfy` | connection gating and the inbound handler (`node/gater.go`, `node/inbound.go`) |
| `Ownership.dfy` | all of the above running concurrently |
| `DialScheduler.dfy` | the dial loop and its goroutines (`node/peermanager.go`) |
| `Backoffs.dfy` | per-peer exponential backoff (`node/peermanager.go`) |
| `SlotClock.dfy` | slot arithmetic and the slot timer (`node/attestation.go`) |
| `AttestationBuffers.dfy` | the slot-keyed attestation buffer (`node/attestation.go`) |
| `BlockTrackers.dfy` | block arrivals, their clean-up, and the join at logging time (`node/block.go`, `node/attestation.go`) |
| `Crawl.dfy` | the crawl writer under concurrent discovery loops and callbacks (`discovery/discovery.go`) |
| `UserAgents.dfy` | user-agent counts and normalisation (`node/useragent.go`) |
| `Attnets.dfy` | the subnet bitfield, encoder against decoder (`rpc/rpc.go`, `discovery/discovery.go`) |
| `Configs.dfy` | configuration validation (`config/config.go`) |
| `Deployment.dfy` | the validated instances as the instances of the owner map (`main.go`) |

## How the model is built

Objects whose methods update fields are classes. Each method is proved equal to a function on values
(`Model()` before and after), and everything else is proved about those functions. Where the source is
concurrent (ownership, dialling, crawling), the same functions are the steps of a labelled transition system:
one action per mutex-protected section, channel operation, atomic access or host event. A run is a sequence
of actions in any order; an action that is not enabled does nothing. So a statement about every run is a
statement about every interleaving. In particular `AddPeer` is two actions, `tooManyInFlight` is two reads,
and the inbound handler's `Claim` and `ClosePeer` are two actions.

Time, randomness and the host library enter as parameters: clock readings, the draws of the shuffle (over all of which the sampling theorems range), and the
actions by which connections come and go. Peer IDs and instance names are compared for equality and nothing
else, so numbers stand for them; `Deployment.dfy` ties the numbers to the configured names. `uint64` arithmetic
wraps explicitly wherever the source's does.

Five properties that look plausible turn out to be false of the code. For each the project has a concrete
failing input and the exact condition, one that can be checked beforehand, under which the property holds:

* Own dials exceed the cap by at most 20 peers: true if both reads of `tooManyInFlight` were one step
  (`SharpPeerCap`); with the reads apart it holds on all runs if and only if the cap is 1 (`SharpBoundExactly`).
  The true maximum is the cap + 20 + x, where x is the largest number with x(x+1)/2 <= min(cap-1, 479), so at
  most 30: no run exceeds it (`TruePeerCap`) and for every cap a run reaches it (`TrueBoundReached`).
* Every connection is owned at every step: this holds along a run if and only if the host never opens a
  connection outside the dial managers to a peer that its instance does not own (`OwnedExactly`, with
  `OpenOverlap` as the failing run). Without that condition every connection is owned, queued or being closed
  (`OpenSystem`), and every schedule of the handlers that leaves them nothing to do restores it
  (`EveryScheduleConverges`).
* A slot within 64 of the newest block is reported as proposed whenever its block was seen: this holds after
  every message of a run if and only if no block from before slot 64 arrives after one from beyond it. The bound
  slot - 64 then wraps and the clean-up deletes everything (`JoinExactly`, `StaleBlockErases`).
* A peer that the crawl has written never becomes pending again: this holds on all runs if and only if there is
  at most one discovery loop, that is unless a discv4 port is configured (`WrittenStayDoneExactly`,
  `SeenCanBePendingAgain`). The output still has one line per peer (`CrawlOutput`).
* A normalised user agent is a name and a major version, as the comment on `normalizeUserAgent` says: the code
  keeps everything up to the first dot after the first slash, further slashes included, so the result has a
  single slash if and only if the input has a slash and no second one before that dot (`SingleSlashExactly`,
  `SecondSlashStays`). The model follows the code.

Where the code compares with `CurrentSlot - 1`, the subtraction would wrap at slot 0; on the slot timer it never
does, so a tick hands over exactly the slots that have ended (`HandedWhenEnded`, `NeverEarly`).

## Model

| member | source | states |
|---|---|---|
| `SharedPeerSets.SharedPeerSet.constructor` | node/sharedpeerset.go:22-30 | a new set has no owners, a zero counter and the given non-empty instance list |
| `SharedPeerSets.SharedPeerSet.AssignOrGet` | node/sharedpeerset.go:34-45 | the returned instance owns the peer afterwards, no earlier owner changes, and the counter advances modulo 2^64 only for a new peer |
| `SharedPeerSets.SharedPeerSet.Owner` | node/sharedpeerset.go:48-52 | answers with the owner exactly when there is one |
| `SharedPeerSets.SharedPeerSet.Claim` | node/sharedpeerset.go:57-65 | the returned instance owns the peer, the flag says whether it is the caller, and a lost claim changes nothing |
| `SharedPeerSets.EveryRunIsRoundRobin` | node/sharedpeerset.go:34-65 | over every run of assignments and claims the j-th placed peer belongs to instance j mod 2^64 mod n, and every owned peer was placed or first claimed, never both |
| `SharedPeerSets.OwnersNeverChange` | node/sharedpeerset.go:9-12 | no continuation of a run takes an owner back |
| `SharedPeerSets.Fairness` | node/sharedpeerset.go:34-65 | until the counter wraps, instance k of n holds exactly floor((nextIdx+n-1-k)/n) of the placed peers, and all assignments number nextIdx plus the first-time claims |
| `SharedPeerSets.Balanced` | node/sharedpeerset.go:32-45 | any two instances' shares differ by at most one |
| `SharedPeerSets.FairExactly` | node/sharedpeerset.go:34-65 | every run short of the wrap gives each instance its quota iff no two instances share a name |
| `Deployment.DistinctIds` | main.go:172-175 | the numbers that stand for the configured names are distinct iff the names are |
| `Deployment.AcceptedIsFair` | main.go:171-197 | a configuration that validation accepts gives an owner map that is fair in every run short of the wrap |
| `Deployment.FairIffNamesDiffer` | config/config.go:78-88 | for any configuration, all such runs are fair iff the configured names are pairwise different, which is what the duplicate check demands |
| `PeerFinders.PeerFinder.constructor` | node/peerfinder.go:22-32 | one empty bucket per host |
| `PeerFinders.PeerFinder.AddPeer` | node/peerfinder.go:36-43 | the peer is assigned; its owner's bucket then holds exactly the given addresses for it; no other entry of any bucket appears, changes or goes |
| `PeerFinders.PeerFinder.GetPeers` | node/peerfinder.go:52-85 | min(count, stored and not skipped) peers with distinct IDs, none of which the filter skips, each with its stored addresses, and just those that the draws put first; no bucket changes; nothing for an unknown instance |
| `PeerFinders.Shuffle` | node/peerfinder.go:73-75 | the candidates end up in the order that the draws determine |
| `PeerFinders.EveryOrderIsDrawn` | node/peerfinder.go:73-75 | every order of the candidates comes out of some draws |
| `PeerFinders.DrawsAreUnique` | node/peerfinder.go:73-75 | two combinations of draws never give the same order, so uniform draws make all orders equally likely |
| `PeerFinders.EverySampleIsDrawn` | node/peerfinder.go:50-85 | every sample of eligible peers of the right size can be returned, whatever order the map was listed in |
| `Gaters.SiblingGater.constructor` | node/gater.go:20-30 | the gater knows exactly the listed siblings |
| `Gaters.SiblingGater.InterceptPeerDial` | node/gater.go:32-35 | a dial is allowed iff the peer is not a sibling |
| `Gaters.SiblingGater.InterceptSecured` | node/gater.go:45-58 | siblings are refused and outbound passes, neither with a claim; an inbound peer passes iff its owner was this instance or nobody, and then this instance owns it |
| `Gaters.HandleInboundPeers` | node/inbound.go:32-49 | over a stretch of events a peer is closed once per connect if somebody else owned it and never otherwise; the instance gains exactly the peers that connected and had no owner; nothing else changes |
| `Ownership.BucketsRun` | node/peerfinder.go:36-43 | in every interleaving each bucket holds only peers its instance owns, all owners are configured names, calls in the middle of AddPeer know the right owner, and owners and bucketed peers never go away |
| `Ownership.NeverDropped` | node/peerfinder.go:34-43 | once AddPeer has returned, the peer stays forever in exactly one bucket, that of its unchanging owner, whatever ran between its two critical sections |
| `Ownership.BucketsExactly` | node/peerfinder.go:34-43 | in every interleaving a bucket holds exactly the peers its instance owns for which some AddPeer has returned, each with the argument of the call that returned last |
| `Ownership.SecuredExactly` | node/gater.go:45-58 | in any state an inbound connection gets past the gater iff it is not from a sibling and the peer's owner was this instance or nobody; it is owned from then on |
| `Ownership.ConnectionsExactly` | node/gater.go:32-58 | exactly which connections each action leaves: dials open one iff not to a sibling, inbound iff secured, and only disconnects and closes remove one |
| `Ownership.EventsExactly` | node/inbound.go:36-39 | an event joins a host's queue exactly when one of its connections comes or goes, and says which |
| `Ownership.DiscoveredIsDialled` | node/peerfinder.go:36-48 | from every state of a run a discovered peer can be filed, pulled and dialled by its one owner, and ends up connected unless it is a sibling |
| `Ownership.OpenRun` | node/inbound.go:36-49 | the open-system invariant is kept by every action, including outbound connections the owner map never saw |
| `Ownership.OpenSystem` | node/gater.go:45-58 | in every reachable state each connection is owned, or its connect event is still queued, or the handler is about to close it; and no instance is connected to a sibling |
| `Ownership.QuietMeansDisjoint` | node/inbound.go:12-19 | when no event waits and no close is in progress the instances' connected peer sets are pairwise disjoint |
| `Ownership.EveryScheduleConverges` | node/inbound.go:28-51 | from every reachable state and for every schedule of the handlers: owners stay, each instance takes at most as many effective steps as it has work, and if all are served at the end then exactly the connections whose peer belongs to the host holding them remain |
| `Ownership.HandlersConverge` | node/inbound.go:28-51 | from every reachable state some such schedule does serve all instances |
| `Ownership.OwnedExactly` | node/gater.go:45-58 | along any run every connection is owned after every step iff the host never opens a connection, outside the dial managers, to a peer its instance does not own at that moment |
| `Ownership.ClosedSystem` | node/peermanager.go:75-98 | if only the dial managers dial out, every connection is owned and the sets are disjoint at every step, and the inbound handler never reaches ClosePeer |
| `Ownership.OpenOverlap` | node/gater.go:49-53 | a concrete run in which one unseen outbound dial puts two instances on the same peer |
| `DialScheduler.InFlightEquation` | node/peermanager.go:61-101 | at every step inFlight = tokens + handlers between release and decrement - (1 if the loop is between acquire and add), and running handlers never exceed 500 |
| `DialScheduler.CheckExactly` | node/peermanager.go:110-115 | with nothing in between, the check passes iff there is no cap or peers plus inFlight are below cap+20; a failed check drops the rest of the batch |
| `DialScheduler.PullExactly` | node/peermanager.go:74-85 | a pulled batch of up to 50 peers is worked through from its first peer; an empty one sends the loop back to the top |
| `DialScheduler.LaunchExactly` | node/peermanager.go:87-99 | a handler starts, raising semaphore and counter, iff one of 500 tokens is free, and the loop goes on with the rest of the batch |
| `DialScheduler.HandlerExactly` | node/peermanager.go:117-138 | a handler dials iff its peer is not connected, not in backoff, and there is no cap or fewer peers than the cap are connected; otherwise it ends |
| `DialScheduler.DialExactly` | node/peermanager.go:94-97 | a dial that ends gives token and count back and leaves a connection iff it succeeded |
| `DialScheduler.StopsForGood` | node/peermanager.go:65-93 | cancelled while waiting, the loop starts no further handler in any continuation |
| `DialScheduler.NoCap` | node/peermanager.go:33-42 | without a cap any number of peers can be connected by own dials, with any number of handlers up to 500 dialling besides |
| `DialScheduler.PeerCap` | node/peermanager.go:110-132 | for a positive cap, inFlight never exceeds cap+20 and peers connected by own dials never exceed cap-1+min(500, cap+20), with both reads apart |
| `DialScheduler.SharpPeerCap` | node/peermanager.go:110-115 | if both reads were one step, own dials would never connect more than cap+20 peers |
| `DialScheduler.StaleLaunch` | node/peermanager.go:114-114 | i dials that land between the two reads let one more dial start although the total is already i-1 over the slack |
| `DialScheduler.TruePeerCap` | node/peermanager.go:61-132 | on every interleaving own dials connect at most cap+20+x peers, x being the largest number with x(x+1)/2 <= min(cap-1, 479) |
| `DialScheduler.TrueBoundReached` | node/peermanager.go:61-132 | for every positive cap an interleaving that connects exactly that many |
| `DialScheduler.TrueMaximum` | node/peermanager.go:61-132 | that bound is the exact maximum over all reachable states, for every positive cap |
| `DialScheduler.ExcessLimit` | node/peermanager.go:110-132 | the excess x is 0 for cap 1, at least 1 for every larger cap and never more than 30 |
| `DialScheduler.SharpBoundExactly` | node/peermanager.go:110-132 | with the reads apart the sharper bound holds on all runs iff the cap is 1 |
| `Backoffs.BackoffTable.InBackoff` | node/peermanager.go:153-161 | blocked iff an entry exists and now is before its next dial time |
| `Backoffs.BackoffTable.RecordFailure` | node/peermanager.go:163-176 | one more failure, and the next dial one backoff from now |
| `Backoffs.BackoffTable.ClearBackoff` | node/peermanager.go:178-182 | the peer's entry is gone and no other is touched |
| `Backoffs.BackoffIsCappedDoubling` | node/peermanager.go:168-168 | the backoff is min(30s*2^(f-1), 30min) for every f>=1, lies in [30s, 30min], and the int64 product never overflows |
| `Backoffs.TableMeaning` | node/peermanager.go:153-182 | after any run a peer has an entry iff it failed since its last clear, and the entry is its failure count and its last failure plus the backoff |
| `Backoffs.PassesExactly` | node/peermanager.go:153-176 | after any run a check passes iff the peer has not failed since its last clear or min(30s*2^(failures-1), 30min) has elapsed since its last failure |
| `Backoffs.NextDialNeverDecreases` | node/peermanager.go:163-176 | between clears the next dial time never moves back |
| `Backoffs.BackoffRespected` | node/peermanager.go:123-127 | a check that passes comes a full backoff after every failure since the last clear |
| `SlotClock.CompletedSlotsIncrease` | node/attestation.go:61-86 | on a monotone clock with timers that never fire early, the current slot at a tick is at least 1, so subtracting 1 never wraps, and completed slots strictly increase |
| `SlotClock.StartIsFirstInstant` | node/attestation.go:61-64 | the start time of a slot is its first instant: the current slot there is the slot and one nanosecond earlier the one before; a slot ends where the next starts |
| `SlotClock.TicksOnTime` | node/attestation.go:61-79 | the timer aims at the first slot start after arming, at most one slot away, and the tick reads the very next slot iff it is handled within it |
| `AttestationBuffers.SlotBuffer.Receive` | node/attestation.go:76-77 | the entry is appended to its slot |
| `AttestationBuffers.SlotBuffer.OnTimer` | node/attestation.go:78-85 | each due slot is handed over whole, once, in some order, and exactly those slots leave the buffer |
| `AttestationBuffers.OrderKept` | node/attestation.go:67-89 | over every run the batches of a slot, end to end, followed by what waits, are the slot's entries in the order received |
| `AttestationBuffers.Conservation` | node/attestation.go:67-89 | over every run each attestation was received as often as it was handed over plus as often as it still waits |
| `AttestationBuffers.HandedWhenEnded` | node/attestation.go:67-89 | on the slot timer a tick hands over exactly those waiting slots whose end has passed when it is handled, and keeps exactly the others |
| `AttestationBuffers.NeverEarly` | node/attestation.go:78-85 | on the slot timer no tick of any run hands over a slot that has not ended, so the wrapping comparison at slot 0 is out of reach |
| `BlockTrackers.BlockTracker.Record` | node/block.go:31-37 | the first arrival of a slot is stored and later ones are ignored |
| `BlockTrackers.BlockTracker.GetBlockArrival` | node/block.go:40-45 | answers with the stored arrival, if any |
| `BlockTrackers.BlockTracker.Cleanup` | node/block.go:48-56 | exactly the slots below the bound are removed |
| `BlockTrackers.ListenForBlocks` | node/block.go:59-112 | the tracker ends up as the fold of record-and-clean-up over the messages whose slot has a start time |
| `BlockTrackers.TimedFirst` | node/block.go:75-90 | the listener's filter loses nothing: a slot's first arrival is that of its first message, if the slot has a start time |
| `BlockTrackers.FirstArrivalMeaning` | node/block.go:30-37 | the reference notion of a slot's arrival: the time of the first message for it, or none |
| `BlockTrackers.JoinExactly` | node/block.go:106-110 | after every message of a run, every slot not more than 64 behind the newest block is answered with its first arrival, iff no block with slot below 64 arrives after one with slot above 64 |
| `BlockTrackers.StaleExactly` | node/block.go:106-110 | that condition on the messages alone says the same as: no clean-up ever fires with a wrapped bound |
| `BlockTrackers.JoinMidway` | node/block.go:90-110 | a lookup between Record and clean-up of a message, two separate critical sections, is answered with the first arrival as well |
| `BlockTrackers.ProposedStays` | node/block.go:90-110 | under the same condition a recorded arrival within reach is answered the same by every continuation |
| `BlockTrackers.StaleBlockErases` | node/block.go:106-110 | a concrete run in which a stale block erases the newest arrival |
| `BlockTrackers.SpaceBound` | node/block.go:106-110 | for nondecreasing slots neither subtraction wraps, stored slots are within 64 of the last clean-up, and at most 129 are stored |
| `BlockTrackers.AttestationLog.LogSlotAttestations` | node/attestation.go:91-141 | log, counters and histograms change by exactly the batch, entry by entry, from one lookup; nothing changes if the slot has no start time |
| `BlockTrackers.MillisRounds` | node/attestation.go:128-138 | logged durations are truncated toward zero, to within a millisecond |
| `BlockTrackers.LogJoin` | node/attestation.go:91-141 | what is logged is true of the blocks: one line per entry in order with its subnet, slot and attester, time in slot and arrival delay in milliseconds, proposed iff a block of the slot was processed before, the delay measured from the first such block and otherwise from 4s into the slot; the histograms get the same durations; each subnet's counters rise by its entries and by those more than 8s into the slot |
| `BlockTrackers.LogJoinMidway` | node/attestation.go:91-141 | the same for a lookup between a message's Record and its clean-up |
| `Crawl.CrawlFileWriter.HasPeer` | discovery/discovery.go:366-374 | known iff seen or pending |
| `Crawl.CrawlFileWriter.RegisterENR` | discovery/discovery.go:377-381 | the peer's ENR is pending, replacing an earlier one |
| `Crawl.CrawlFileWriter.WriteConnected` | discovery/discovery.go:384-399 | a pending, unseen peer gets one line with its pending ENR; a pending peer already seen only stops being pending; any other peer changes nothing |
| `Crawl.CrawlOutput` | discovery/discovery.go:342-399 | in every interleaving the output has exactly one line per seen peer, each an ENR with which some loop came across that peer |
| `Crawl.NodeIsCrawled` | discovery/discovery.go:205-213 | from any state a loop takes a node whose peer is unknown through registration and routing, and the peer's connection then adds exactly its line; a known peer is skipped |
| `Crawl.ConnectedPeersAreWritten` | discovery/discovery.go:205-213 | every routed peer is pending or seen; its connection callback ends its being pending and makes it seen for good |
| `Crawl.SeenCanBePendingAgain` | discovery/discovery.go:205-213 | for any two loops, peer and ENR, a race that puts a written peer back into pending |
| `Crawl.WrittenStayDoneExactly` | discovery/discovery.go:146-162 | over all runs of a set of discovery loops no written peer is ever pending iff there is at most one loop |
| `UserAgents.NormalizeTruncates` | node/useragent.go:26-43 | a non-empty agent string is truncated just before the first dot after the first slash, and never to nothing |
| `UserAgents.NormalizeIdempotent` | node/useragent.go:26-43 | over all strings normalising twice is normalising once, the result is never empty, and the empty string becomes "unknown" |
| `UserAgents.SecondSlashStays` | node/useragent.go:24-26 | an input whose second slash survives |
| `UserAgents.SingleSlashExactly` | node/useragent.go:24-43 | the result has exactly one slash iff the input has a slash and no second one before the first dot after it |
| `UserAgents.UserAgentTracker.OnIdentified` | node/useragent.go:77-91 | the peer moves from its old agent, if any, to its new one in map, counts and gauge |
| `UserAgents.UserAgentTracker.OnNotConnected` | node/useragent.go:98-111 | a tracked peer leaves map, counts and gauge; an unknown one changes nothing |
| `UserAgents.TracksAnnouncements` | node/useragent.go:73-111 | a peer is tracked iff it has identified itself since it last disconnected, under its latest announcement |
| `UserAgents.IndexAgrees` | node/useragent.go:63-111 | after every event sequence counts and gauge equal recomputation from the peers, unused agents have no entry, and the counts sum to the number of tracked peers |
| `Attnets.MakeAttnetsBytes` | rpc/rpc.go:266-274 | the buffer holds the encoding of the list, which `EncodeMeaning` and `EncodedNumber` spell out |
| `Attnets.HasSubnetOverlap` | discovery/discovery.go:249-264 | true iff the record has the entry and, for some listed ID below 64, byte ID/8 exists and its number has binary digit ID%8 set |
| `Attnets.EncodeMeaning` | rpc/rpc.go:266-274 | binary digit i%8 of the number in byte i/8 is 1 iff ID i is listed and below 64 |
| `Attnets.EncodedNumber` | rpc/rpc.go:266-274 | as one little-endian number the buffer has the digit of weight 2^i iff ID i is listed and below 64 |
| `Attnets.EncoderMeetsDecoder` | discovery/discovery.go:256-263 | overlap of B with the encoding of A holds iff A and B share an ID below 64 |
| `Attnets.EncodingIsASet` | rpc/rpc.go:266-274 | two lists encode to the same bytes iff they have the same IDs below 64: order and repeats do not matter |
| `Attnets.PopCountIsDistinct` | rpc/rpc.go:266-274 | as many bits are set as there are distinct IDs below 64 |
| `Configs.CheckNames` | config/config.go:78-88 | passes iff all names are non-empty and distinct; otherwise it reports the first instance that breaks this |
| `Configs.ScanPorts` | config/config.go:122-148 | passes iff all nonzero ports of all instances and discv4 are pairwise distinct; otherwise it names the first place whose port is taken and the place that has it |
| `Configs.Validate` | config/config.go:69-151 | accepts iff mode, instances, names, mode constraints, base ports and ports are all in order; a rejection names the first thing that is wrong, in the order of the checks |
| `Configs.FirstFaultIsUnique` | config/config.go:69-151 | there is at most one first fault, so the reported error is determined by the configuration |
| `Configs.PortScanIsArithmetic` | config/config.go:122-166 | with nonzero bases and no wrap-around the scan passes iff TCP and QUIC bases do not differ by an even number up to 2(n-1), neither differs from discv5 by -(n-1)..2(n-1), and discv4 lies on none of the three ranges |

## Left out

- libp2p, discv4/discv5, gossipsub, SSZ and snappy coding, prysm: only their effects appear, as actions and small functions. Connect events are assumed to be queued whenever a (host, peer) pair becomes connected, with the handlers subscribed from the start.
- Concurrent `ClosePeer`: closing a peer is taken to disconnect the (host, peer) pair in one step; a further connection accepted by the host while the close is running is not modelled.
- Dial-loop filters in the dial scheduler: `GetPeers` may hand the loop any batch of up to 50 peers, and the answer of the backoff check is arbitrary; both only add runs.
- Liveness: nothing says that a queued event, a pulled peer or a slot is eventually processed, except that the handlers can always finish (`HandlersConverge`) and that every schedule of theirs has boundedly many effective steps (`EveryScheduleConverges`).
- Backoffs.BackoffTable.RecordFailure: the failure count does not wrap at 2^63, which takes longer than any run.
- SlotClock.CompletedSlotsIncrease: the clock stays within the 292 years of genesis that a time.Duration can express; beyond that the slot number would stand still.
- BlockTrackers.AttestationLog.LogSlotAttestations: histograms are the durations handed to them, in nanoseconds; their conversion to floating-point seconds, their buckets and the formatting of a log line are not modelled.
- BlockTrackers.ListenForBlocks: messages that fail to decode, and the block counter, histogram and log line of the listener, do not appear.
- SlotClock.StartIsFirstInstant: for slots whose start is within 292 years of genesis; the slot library's own code is not part of this model.
- PeerFinders.PeerFinder.GetPeers: the skip filter is a fixed predicate for the duration of one call.
- `IsConnectedToAny`, `BackoffDuration`, `Status`, `Close` and the reading of ENRs and bootstrap files: one-line queries and I/O.
- `main.go`, host and gossipsub construction, metrics registration, scoring and connectivity reporting: wiring, floating-point tables and simple counts.
- RPC stream handlers and status messages: I/O.
- Context cancellation, except as the step that stops the dial loop.
