# Verified model of the AmneziaWG data plane and the OpenVPN lease protocol

This Dafny project models the hardest parts of the repository and proves what they promise for
every input, every run and every interleaving: the AmneziaWG kernel module under `awgsrc/src`, the
address leases of the OpenVPN hooks in `main.go`, and the account encoder in `xray/api.go`.
`dafny verify dfyconfig.toml` checks all of it.

| component | files |
|---|---|
| allowed-IPs trie, as a value | `TrieTree.dfy`, `TrieOps.dfy`, `TrieShape.dfy` |
| the trie in memory, its stores and its readers | `TrieHeap.dfy`, `TrieStack.dfy`, `AllowedIpsState.dfy`, `AllowedIpsInsert.dfy`, `AllowedIpsRemove.dfy`, `AllowedIps.dfy` |
| lookups that run between the single stores of an update | `TrieReader.dfy`, `AllowedIpsReader.dfy`, `ReaderRemoval.dfy`, `ReaderElsewhere.dfy` |
| lock-free queue; parallel encryption with serial delivery; who wakes the consumer | `PrevQueue.dfy`, `CryptPipeline.dfy`, `Wakeups.dfy` |
| replay window | `ReplayWindow.dfy` |
| Noise IKpsk2 handshake, symbolic; the same against an attacker; keypair rotation | `Symbolic.dfy`, `Noise.dfy`, `NoiseAttacker.dfy`, `Keypairs.dfy` |
| OpenVPN leases: the hooks, and timed runs of them | `OvpnLease.dfy`, `OvpnRuns.dfy` |
| rate limiter and its collector | `RateLimiter.dfy` |
| index hashtable | `IndexTable.dfy` |
| nonces for staged packets | `StagedSend.dfy` |
| obfuscated message headers; special packets | `MagicHeader.dfy`, `Classify.dfy`, `JunkText.dfy`, `JunkPacket.dfy` |
| protobuf account encoder | `Protobuf.dfy` |
| shared constants and sequences; string splitting and decimal numbers | `Common.dfy`, `Text.dfy` |

Code that changes things in place is a class or a method with loops, proved against functions of
the old state. Code that runs concurrently is a state machine whose steps are single shared
accesses (or locked sections), with theorems over all enabled runs. Keys and addresses are
sequences of bits, so byte order does not appear. Clocks, randomness, allocation outcomes and
network input are parameters.

## Where the code and its description part

Where a promise fails, a lemma gives an input on which it does; how far the condition given with it is
exact is said in each case.

- Allowed IPs (`allowedips.c:127-147`): a lookup among the stores of one update answers from the table
  before or after it. Two updates that overtake one lookup can make it answer from a mixture; one
  update is a sufficient condition, not an exact one.
- Rate limiter (`ratelimiter.c:69-79`): a collection pass reads the clock once. An entry used after
  that has a later time, the unsigned difference wraps, and the entry is dropped whatever its
  tokens. The collector is invisible exactly when every such entry has a full bucket.
- Leases (`main.go:2279-2303`): the release marker promises that an account can redial at once. It is
  written for the first lease of the session that the hook finds (`main.go:2248-2261`). An account at
  its limit is refused exactly if that freed no slot and no lease of a failed dial can be reclaimed.
  Nothing is freed in three families, each with a run: the lease was purged, because any other dial
  removes leases older than 30 seconds; a failed dial of the same session left a second lease, already
  expired or of another block, and the hook finds that one; or the redial comes over the other transport
  (`main.go:2096-2107`), which reads no markers there. The condition covers every reachable state and
  every lease the hook can find, failed dials included. It is exact for a redial at the instant of the
  disconnect whose status views list just the devices connected before it.
- Queue (`queueing.c:80-106`): a dequeue may return NULL although at the moment of return no producer
  is mid-way; the pending producer existed at an earlier moment of the same call. Because of this a
  settled packet may stay in the queue with no consumer run due, until the packet enqueued behind it
  is settled. The step that does this is characterised both ways; for the NULL itself a necessary
  condition is given. Once all waiting packets are settled a wake-up is always due.
- Nonces (`send.c:444-462`): nothing but the distance of the limit to 2^64 keeps the counter from
  wrapping. That suffices exactly for up to 8130 threads inside the send path.
- Message kinds (`receive.c:30-74`): with different S values a message can be received as another
  kind; the condition on the configuration under which this cannot happen is exact.
- Special packets (`junk.c:282-295`): the size sum is a 32-bit integer and lengths may be negative, while
  letter and digit parts of a negative length write nothing. Writes stay inside the packet exactly if
  every part that writes has room; the parts stand end to end exactly if no length is negative and
  the true sum is within the limit.
- Account encoder (`xray/api.go:195`): field numbers lose their bits above 2^61 in the tag. The two
  callers (`xray/api.go:320-354`) pass 1 and 2.

One oddity breaks no promise: for a cookie reply the classifier (`receive.c:57`) returns the type
number 3, not the structure's size; the model follows it.

## Model

| member | source | states |
|---|---|---|
| `TrieTree.PrefixMatchesIffCovers` | awgsrc/src/allowedips.c:87-109 | the xor and find-last-set test holds exactly when the node's masked prefix covers the key |
| `TrieTree.AnswersUnique` | awgsrc/src/allowedips.c:111-125 | an answer satisfying the declarative longest-prefix property is the one the plain-map search computes |
| `TrieTree.LookupIsLongestMatch` | awgsrc/src/allowedips.c:111-125 | on every ordered trie, descending from the root answers as a longest-prefix search over the plain map of its entries |
| `TrieOps.InsertCorrect` | awgsrc/src/allowedips.c:181-250 | insertion keeps order and compression, and the map of the new trie is the old one with one entry set |
| `TrieOps.RemoveCorrect` | awgsrc/src/allowedips.c:252-281 | removal keeps order and compression, and the map loses exactly one entry |
| `TrieOps.ExactOrAbsent` | awgsrc/src/allowedips.c:149-167 | the placement walk finds an exact node, or the prefix has no entry |
| `TrieShape.HistoryIndependence` | awgsrc/src/allowedips.c:199-281 | two ordered compressed tries with the same map have the same shape, node by node |
| `TrieShape.ShapeDeterminesTable` | awgsrc/src/allowedips.c:199-281 | conversely, the same shape means the same map |
| `TrieShape.SizeBound` | awgsrc/src/allowedips.c:199-281 | a compressed trie of n entries has at most 2n - 1 nodes |
| `TrieShape.RootIsCommonPrefix` | awgsrc/src/allowedips.c:212-249 | the root's prefix is the longest common prefix of all entries |
| `TrieShape.ReportedIffPrefix` | awgsrc/src/allowedips.c:383-394 | a reported node shows its prefix and zeros, so two nodes report the same exactly when their prefixes agree |
| `TrieMem.PublishGraft` | awgsrc/src/allowedips.c:212-249 | the single publishing store turns memory that holds the old trie into memory that holds the trie after insertion, parent links included |
| `TrieMem.PublishPeer` | awgsrc/src/allowedips.c:199-203 | replacing the peer of an exact node is insertion of an existing prefix |
| `TrieMem.PublishClear` | awgsrc/src/allowedips.c:257-260 | clearing the peer already reads as the map without the entry |
| `TrieMem.PublishSplice` | awgsrc/src/allowedips.c:261-266 | hanging the only child from the removed node's slot reads as the map without the entry |
| `TrieMem.PublishParentFree` | awgsrc/src/allowedips.c:267-280 | so does hanging the sibling from the slot of a parent that is no longer needed |
| `TrieStack.PeakBound` | awgsrc/src/allowedips.c:9-80 | the traversal stack never holds more than one entry more than the key has bits |
| `TrieStack.SpinePeak` | awgsrc/src/allowedips.c:9-80 | and some valid trie reaches that height, so 129 slots are exactly enough for 128 bits |
| `TrieStack.PushRcu` | awgsrc/src/allowedips.c:41-49 | pushing a child stays inside the array because the child lies deep enough |
| `TrieStack.Traverse` | awgsrc/src/allowedips.c:56-80 | the traversal visits every node of the trie exactly once, within 129 slots, and its peak height is the computed one |
| `AllowedIpsState.FindNode` | awgsrc/src/allowedips.c:111-125 | the pointer walk returns the node the value-level search names |
| `AllowedIpsState.Lookup` | awgsrc/src/allowedips.c:127-147 | a lookup on memory that reads as a map gives that map's longest-prefix match |
| `AllowedIpsState.NodePlacement` | awgsrc/src/allowedips.c:149-167 | the walk stops at the insertion point: exact node, or parent and slot of the missing one |
| `AllowedIpsState.AppendExact` | awgsrc/src/allowedips.c:205-210 | listing a node under its peer keeps every peer's list equal to the nodes that carry the peer |
| `AllowedIpsState.UnlistExact` | awgsrc/src/allowedips.c:257-258 | unlisting does too |
| `AllowedIpsInsert.LeafDone` | awgsrc/src/allowedips.c:189-220 | case one: after every store readers see the old map or the new one, and the final state is valid |
| `AllowedIpsInsert.AboveDone` | awgsrc/src/allowedips.c:222-232 | case two, a new node above an existing one |
| `AllowedIpsInsert.BranchDone` | awgsrc/src/allowedips.c:234-249 | case three, a new branching point, eight stores |
| `AllowedIpsInsert.ExactDone` | awgsrc/src/allowedips.c:199-203 | an existing prefix changes hands by one store |
| `AllowedIpsRemove.KeepDone` | awgsrc/src/allowedips.c:257-260 | removing a node with two children only clears its peer |
| `AllowedIpsRemove.SpliceDone` | awgsrc/src/allowedips.c:257-276 | removal with one or no child, store by store |
| `AllowedIpsRemove.ParentDone` | awgsrc/src/allowedips.c:257-280 | removal that also drops a peerless parent, store by store |
| `TrieReader.InterleavedSafe` | awgsrc/src/allowedips.c:111-147 | a lookup that loads one field per step, starting over at a cleared peer, ends only at nodes where some version of the trie leads, however stores fall between its loads |
| `AllowedIpsReader.UndisturbedAnswers` | awgsrc/src/allowedips.c:111-147 | a lookup that no store disturbs ends within two loads a bit, with the longest-prefix match |
| `AllowedIpsReader.LeafSafe` | awgsrc/src/allowedips.c:189-220 | no interleaving of a lookup's loads with the stores of case one gives an answer that is neither that of the table before nor of the one after |
| `AllowedIpsReader.AboveSafe` | awgsrc/src/allowedips.c:222-232 | nor with those of case two |
| `AllowedIpsReader.BranchSafe` | awgsrc/src/allowedips.c:234-249 | nor with the eight stores of case three |
| `AllowedIpsReader.TwoUpdatesMix` | awgsrc/src/allowedips.c:127-250 | two updates that overtake one lookup can make it answer with a peer that is right neither before, nor between, nor after them |
| `AllowedIpsReader.ExactSafe` | awgsrc/src/allowedips.c:199-203 | nor with the change of an existing prefix's peer |
| `ReaderRemoval.KeepSafe` | awgsrc/src/allowedips.c:257-260 | nor with the removal of a branching node's entry |
| `ReaderRemoval.SpliceSafe` | awgsrc/src/allowedips.c:257-276 | nor with splicing a node out, although a lookup may still stand on it |
| `ReaderRemoval.ParentSafe` | awgsrc/src/allowedips.c:257-280 | nor with freeing its parent as well |
| `ReaderElsewhere.RunsSame` | awgsrc/src/allowedips.c:111-147 | a lookup whose trie no store touches holds the same pointers in every interleaving as if nothing happened |
| `ReaderElsewhere.InsertElsewhere` | awgsrc/src/allowedips.c:189-249 | so it is for lookups in the other family's trie during each insertion of a new prefix |
| `ReaderElsewhere.PeerElsewhere` | awgsrc/src/allowedips.c:199-203 | and during a change of a node's peer |
| `ReaderElsewhere.SpliceElsewhere` | awgsrc/src/allowedips.c:257-276 | and while a node is spliced out |
| `ReaderElsewhere.ParentElsewhere` | awgsrc/src/allowedips.c:257-280 | and while its parent is freed as well |
| `AllowedIpsRemove.EmptyListNoEntry` | awgsrc/src/allowedips.c:371-381 | an empty peer list means no prefix of either family names the peer |
| `AllowedIps.AllowedIpsTable.constructor` | awgsrc/src/allowedips.c:298-302 | the empty table is valid and maps nothing |
| `AllowedIpsRemove.SameReads` | awgsrc/src/allowedips.c:169-173 | stores to fields that lookups never follow, such as the parent link written before the publishing store, change no lookup's table |
| `AllowedIps.AllowedIpsTable.Add` | awgsrc/src/allowedips.c:181-250 | the map gains the entry; the log is exactly the memories after each single store, each reads as the map before or after, and no interleaving with a lookup's loads, in either trie, gives another answer; a failed allocation or a bad argument changes no map and no memory a reader sees |
| `AllowedIps.AllowedIpsTable.GiveUp` | awgsrc/src/allowedips.c:234-239 | after a failed second allocation the node's listing is undone |
| `AllowedIps.AllowedIpsTable.RemoveNode` | awgsrc/src/allowedips.c:252-281 | one entry leaves the map, store by store and for every interleaved lookup, and the peer's list loses exactly that node |
| `AllowedIps.AllowedIpsTable.Remove` | awgsrc/src/allowedips.c:283-296 | every entry but the peer's own one at that prefix stays, and that one is gone, also for lookups in between; a too long prefix is refused |
| `AllowedIps.AllowedIpsTable.RemoveByPeer` | awgsrc/src/allowedips.c:371-381 | all entries of the peer and no others are gone, and its list is empty, although the list changes while it is walked; every memory on the way reads as the map without some of them |
| `AllowedIps.AllowedIpsTable.Free` | awgsrc/src/allowedips.c:304-325 | both maps and all peer lists are empty |
| `AllowedIps.UnlistAll` | awgsrc/src/allowedips.c:69-80 | the teardown traversal takes each node of a trie off its peer's list |
| `AllowedIps.RunHistory` | awgsrc/src/allowedips.c:181-381 | after any sequence of calls both tries stand for the plain maps obtained by replaying them; a call is refused exactly for an overlong prefix or a missing peer |
| `AllowedIps.LookupAfter` | awgsrc/src/allowedips.c:127-381 | and every lookup then answers as a longest-prefix search over the replayed map |
| `AllowedIps.ReplayMeaning` | awgsrc/src/allowedips.c:181-381 | after any history a prefix belongs to a peer exactly if some call gave it to that peer and no later call handed it to another, took it from that peer, or removed the peer |
| `AllowedIps.SameTablesSameTries` | awgsrc/src/allowedips.c:181-296 | any two valid states with equal maps have equal tries with at most 2n - 1 nodes |
| `PrevQueue.StepKeeps` | awgsrc/src/queueing.c:53-106 | every atomic step of any producer or of the consumer keeps the queue invariant |
| `PrevQueue.RunKeeps` | awgsrc/src/queueing.c:53-106 | so does every interleaving |
| `PrevQueue.FifoInEveryInterleaving` | awgsrc/src/queueing.c:66-106 | what was dequeued is a prefix of the exchange order, the rest is in the chain, no node twice, and the counter is the exact number in flight, never above its limit |
| `PrevQueue.RefusedIffFull` | awgsrc/src/queueing.c:66-72 | a producer is turned away exactly when 1024 packets are counted |
| `PrevQueue.NullOnlyIfEmptyOrPending` | awgsrc/src/queueing.c:80-106 | NULL comes back only for an empty queue or when, at some moment of the call, a producer stood between its exchange and its link at the tail |
| `PrevQueue.NullWithNobodyPending` | awgsrc/src/queueing.c:80-106 | a run in which a dequeue returns NULL from a queue of two packets while no producer is inside the queue |
| `PrevQueue.DequeueReturnsOldest` | awgsrc/src/queueing.c:80-106 | with no producer mid-way, a dequeue of a nonempty queue returns its oldest packet within seven steps |
| `CryptPipeline.StepKeeps` | awgsrc/src/queueing.h:163-209 | every step of enqueuers, workers and consumers keeps the invariant |
| `CryptPipeline.RunKeeps` | awgsrc/src/queueing.h:163-209 | so does every interleaving |
| `CryptPipeline.OrderedDelivery` | awgsrc/src/receive.c:467-520 | each peer's packets are settled in queue order, none lost or doubled, and those delivered are the settled ones minus the dead |
| `CryptPipeline.StatusAfter` | awgsrc/src/receive.c:531-536 | what each step does to a packet's state: a worker's result, or dead when the ring was full |
| `CryptPipeline.VerdictIsResult` | awgsrc/src/receive.c:480-488 | over every run a packet is delivered exactly if the worker that settled it last succeeded, and dropped if that worker failed or the ring was full |
| `CryptPipeline.QueuesBounded` | awgsrc/src/queueing.h:163-184 | neither the ring nor a peer's queue ever holds more than 1024 packets, and the ring turns a packet away only then |
| `CryptPipeline.ExactlyOneHolder` | awgsrc/src/send.c:342-401 | an UNCRYPTED packet in a peer queue is held by exactly one enqueuer, the ring, or one worker; a settled one by nobody |
| `CryptPipeline.NextStep` | awgsrc/src/queueing.h:163-209 | whoever holds a packet can always take a step that settles it or brings it closer, also when the ring is full |
| `CryptPipeline.CanSettle` | awgsrc/src/receive.c:467-580 | from every reachable state enqueuers and workers alone can settle any waiting packet |
| `Wakeups.MoveKeeps` | awgsrc/src/queueing.h:163-209 | with state writes, scheduling calls, consumer runs and the two stores of an enqueue as separate steps: whoever waits has a consumer run on, due or owed, or a packet still to be settled |
| `Wakeups.NoLostWakeup` | awgsrc/src/queueing.h:186-209 | in every reachable state, if all waiting packets of a peer are settled, its consumer runs, is scheduled, or is about to be |
| `Wakeups.StallsIff` | awgsrc/src/send.c:321-324 | a settled head is left with nobody about to look exactly when a run's look finds nothing because a later enqueue is between its two stores |
| `Wakeups.StalledWaits` | awgsrc/src/send.c:321-324 | it then waits for that later packet to be settled, which wakes the consumer |
| `Wakeups.StallExample` | awgsrc/src/send.c:321-324 | a run in which this happens |
| `Wakeups.CanDeliver` | awgsrc/src/receive.c:467-520 | from every reachable state the oldest waiting packet of a peer can be consumed without any new packet |
| `ReplayWindow.NoAliasing` | awgsrc/src/receive.c:322-358 | no two counters of the covered stretch share a bit of the ring |
| `ReplayWindow.SweepRepresents` | awgsrc/src/receive.c:341-349 | clearing the words between old and new position keeps the ring equal to the accepted set |
| `ReplayWindow.SetRepresents` | awgsrc/src/receive.c:351-353 | setting one bit adds one counter to the set |
| `ReplayWindow.ReplayCounter.CounterValidate` | awgsrc/src/receive.c:322-358 | true exactly for a counter below the limit, never accepted before and not behind the window; no addition wraps |
| `ReplayWindow.ReplayCounter.Clear` | awgsrc/src/receive.c:341-349 | the sweep loop clears exactly the words newly entered |
| `ReplayWindow.ValidateAll` | awgsrc/src/receive.c:322-358 | the object answers every sequence of calls as the set-based specification |
| `ReplayWindow.AcceptedByIff` | awgsrc/src/receive.c:322-358 | the accepted set is the set of counters answered with true |
| `ReplayWindow.RunMeaning` | awgsrc/src/receive.c:322-358 | call k is answered with true exactly when its counter is below the limit, no earlier call with it was, and it is not behind the window |
| `ReplayWindow.FreshCounterAccepted` | awgsrc/src/receive.c:322-358 | a counter above all earlier ones is always accepted |
| `Symbolic.DhCommutes` | awgsrc/src/noise.c:407-433 | both sides compute the same shared point |
| `Symbolic.KdfInjective` | awgsrc/src/noise.c:347-393 | derived keys determine the chaining key and the input, and the three outputs differ |
| `Symbolic.KdfIsHkdf` | awgsrc/src/noise.c:347-393 | the three derived keys are the first three blocks of HKDF-Expand |
| `Noise.Handshake.CreateInitiation` | awgsrc/src/noise.c:520-584 | succeeds exactly with an identity and usable points; the message and the state are those of the reference transcript |
| `Noise.Device.ConsumeInitiation` | awgsrc/src/noise.c:587-681 | accepts exactly the messages that open under this device for a known peer, with a newer timestamp and not too soon; otherwise no peer changes |
| `Noise.Handshake.CreateResponse` | awgsrc/src/noise.c:683-742 | only in the consumed-initiation state; message and state are those of the reference transcript |
| `Noise.Handshake.ConsumeResponse` | awgsrc/src/noise.c:744-830 | accepts exactly a response whose confirmation matches the own transcript, otherwise nothing changes |
| `Noise.Handshake.BeginSession` | awgsrc/src/noise.c:832-877 | yields crossed keys in the two final states and wipes the handshake |
| `Noise.FirstAgreement` | awgsrc/src/noise.c:520-681 | both sides compute the same first message and transcript |
| `Noise.SecondAgreement` | awgsrc/src/noise.c:683-830 | and the same second message |
| `Noise.FirstWritten` | awgsrc/src/noise.c:520-584 | the first message, hash by hash and key by key, written only with the primitives |
| `Noise.SecondWritten` | awgsrc/src/noise.c:683-742 | and the second |
| `Noise.FirstKeyBinds` | awgsrc/src/noise.c:495-497 | the chaining key of the first message binds the ephemeral and both shared points |
| `Noise.SecondKeyBinds` | awgsrc/src/noise.c:683-742 | that of the second binds the key before it, ephemeral, shared points and preshared key |
| `Noise.UndisturbedHandshake` | awgsrc/src/noise.c:520-877 | for all keys the handshake succeeds, both ends hold the reference transcript, and the session keys are the two derived from it, crossed and different |
| `Noise.FinishHandshake` | awgsrc/src/noise.c:683-877 | any two handshakes that agree on the first message and the preshared key complete with the reference transcript and its keys |
| `Noise.SenderBound` | awgsrc/src/noise.c:610-643 | the ciphertexts of a first message determine sender and time |
| `Noise.FirstBinds` | awgsrc/src/noise.c:520-584 | the transcript hash binds identities, ephemeral, shared points and time |
| `Noise.SecondBinds` | awgsrc/src/noise.c:683-742 | the confirmation binds transcript, ephemeral, shared points and preshared key |
| `Noise.ResponseAuthenticates` | awgsrc/src/noise.c:744-830 | if the initiator accepts a response whose confirmation an honest responder computed, both sides agree on identities, ephemerals, time and preshared key, and their transcripts and chaining keys are equal |
| `NoiseAttacker.RunTame` | awgsrc/src/noise.c:520-830 | whatever an attacker with given scalars and preshared keys computes from any number of honest sessions, a key that contains a secret it lacks seals only honest messages |
| `NoiseAttacker.ResponseIsGenuine` | awgsrc/src/noise.c:744-830 | an initiator that accepts any response accepts the answer of the responder it meant, to its own initiation, if one protecting secret is not lost |
| `NoiseAttacker.InitiationIsGenuine` | awgsrc/src/noise.c:587-681 | a responder that accepts an initiation accepts one its sender made for it, if neither static secret is lost |
| `NoiseAttacker.ForgeryIff` | awgsrc/src/noise.c:744-830 | a response can be forged if and only if the preshared key is lost and, besides it, the responder's static secret or both secrets of the initiator |
| `NoiseAttacker.ForgedInitiationIff` | awgsrc/src/noise.c:587-681 | an initiation can be forged if and only if one of the two static secrets is lost |
| `NoiseAttacker.SessionKeysLeakIff` | awgsrc/src/noise.c:832-877 | a session key can become known if and only if the preshared key is lost and, besides it, both secrets of one side; the loss of both static secrets reveals no session |
| `Noise.OpenedIff` | awgsrc/src/noise.c:600-643 | an initiation opens to a sender and a time exactly if its ciphertexts are those of that sender's reference first message |
| `Noise.ConsumeAll` | awgsrc/src/noise.c:587-681 | the device accepts message k of any sequence exactly when it opens, is newer than everything accepted from that sender, and the flood gap has passed |
| `Noise.TimesIncrease` | awgsrc/src/noise.c:587-681 | over every run the times accepted from one sender strictly increase |
| `Noise.AcceptedIff` | awgsrc/src/noise.c:645-660 | message k of any run is accepted exactly if it opens and is newer than, and at least 20 ms after, every message accepted from that sender and what was remembered at the start |
| `Noise.AcceptedOnce` | awgsrc/src/noise.c:587-681 | so no initiation is accepted twice |
| `Keypairs.PutAccounts` | awgsrc/src/noise.c:134-143 | dropping a reference keeps counts exact, never underflows, and frees exactly at zero |
| `Keypairs.InitiatorDone` | awgsrc/src/noise.c:213-241 | an initiator's keypair becomes current with distinct slots and exact counts |
| `Keypairs.ResponderDone` | awgsrc/src/noise.c:242-252 | a responder's keypair becomes next |
| `Keypairs.ConfirmDone` | awgsrc/src/noise.c:256-294 | a packet under the next keypair promotes it |
| `Keypairs.ClearDone` | awgsrc/src/noise.c:154-180 | clearing leaves references only to packets in flight and frees every other keypair once |
| `Keypairs.KeypairTable.Get` | awgsrc/src/noise.c:145-152 | a reference is granted exactly while the keypair is not freed |
| `Keypairs.KeypairTable.Release` | awgsrc/src/noise.c:134-143 | the last holder frees |
| `Keypairs.KeypairTable.AddNewKeypair` | awgsrc/src/noise.c:201-254 | the slot moves of both roles |
| `Keypairs.KeypairTable.BeginSession` | awgsrc/src/noise.c:846-875 | a fresh keypair is installed unless the peer is dead |
| `Keypairs.KeypairTable.ReceivedWith` | awgsrc/src/noise.c:256-294 | promotion happens exactly for the keypair in the next slot |
| `Keypairs.KeypairTable.Clear` | awgsrc/src/noise.c:154-180 | all slots empty, nothing findable, all idle keypairs freed |
| `Keypairs.NextKeeps` | awgsrc/src/noise.c:134-294 | every session start, packet and wipe keeps slots distinct and counts equal to slot plus in-flight references, and frees are final |
| `Keypairs.HistoryValid` | awgsrc/src/noise.c:134-294 | so does every history |
| `Keypairs.FreedOnce` | awgsrc/src/noise.c:134-143 | over every history nothing is freed twice or unfreed |
| `Keypairs.CurrentIsEarned` | awgsrc/src/noise.c:201-294 | a keypair becomes current only as an initiator's new one or by a packet that arrives under that same keypair |
| `Keypairs.SlotsAfter` | awgsrc/src/noise.c:201-294 | where each event leaves the three slots |
| `Keypairs.ConfirmedBecomesCurrent` | awgsrc/src/noise.c:242-294 | a responder's new keypair becomes current, and the old one previous, with the first packet under it |
| `Keypairs.FindableAfter` | awgsrc/src/noise.c:134-294 | incoming packets find a keypair exactly as long as it sits in a slot; only a hashed new keypair becomes findable |
| `Keypairs.RunEvents` | awgsrc/src/noise.c:134-294 | the object's table after any history is the specified one |
| `OvpnLease.LeaseStore.LeaseBlockIp` | main.go:1989-2183 | the files afterwards, and for both strategies exactly which address is granted: first free below the limit, else the oldest ghost, else under accept the longest-connected device's or the oldest lease's, else a refusal; the other transport's files never change |
| `OvpnLease.LeaseStore.Disconnect` | main.go:2263-2303 | the lease of the session, if any, turns into a release marker |
| `OvpnLease.PurgeLeases` | main.go:2059-2074 | exactly the leases past 30 s are removed |
| `OvpnLease.PurgeReleases` | main.go:2305-2327 | exactly the release markers past 15 s are removed |
| `OvpnLease.CountUsed` | main.go:2089-2109 | the number of block addresses in use |
| `OvpnLease.PickFree` | main.go:2111-2121 | the first free address of the block |
| `OvpnLease.PickGhost` | main.go:2140-2149 | the oldest lease past the grace whose address no device shows, or none exists |
| `OvpnLease.OldestLeased` | main.go:2188-2197 | the oldest lease of the directory |
| `OvpnRuns.GrantedIsNotLive` | main.go:2111-2154 | an address granted as free or as a ghost belongs to no live device and lies in the caller's block |
| `OvpnRuns.TotalCoversUsage` | main.go:2085-2109 | the hook's count is never below the account's live devices plus unexpired leases on both transports |
| `OvpnRuns.StepKeeps` | main.go:1989-2331 | every connect, disconnect, vanishing device and passage of time keeps files, devices and limits consistent |
| `OvpnRuns.RunKeeps` | main.go:1989-2331 | so does every timed run |
| `OvpnRuns.LimitHolds` | main.go:1987-2183 | under reject, in every timed run no account exceeds its limit across both transports and no live device's address is handed out |
| `OvpnRuns.RedialRefusedIff` | main.go:2085-2154 | after any disconnect, whichever lease of the session its hook found, the redial at that moment, with the view of before, is refused exactly if the account's devices and unexpired leases, less a slot the hook freed, still fill the block redialled on, and no lease there can be reclaimed |
| `OvpnRuns.RedialAtLimitIff` | main.go:2248-2303 | for an account at its limit: exactly if the hook freed nothing (lease gone, another one found that does not count, or a redial over the other transport) and no lease there can be reclaimed |
| `OvpnRuns.WrongLeaseExample` | main.go:2248-2261 | a run in which the hook finds the expired lease of a failed dial instead of the device's own, writes a marker, and the redial is refused with one device left of two |
| `OvpnRuns.SwitchRefusedExample` | main.go:2096-2107 | a run in which the lease was found and the marker written, and the redial over the other transport is refused |
| `OvpnRuns.RedialRefusedExample` | main.go:2279-2303 | a concrete run in which an account that uses nothing is refused |
| `RateLimiter.TokensConserved` | awgsrc/src/ratelimiter.c:128-142 | tokens spent never exceed what the bucket held plus elapsed time |
| `RateLimiter.RateBound` | awgsrc/src/ratelimiter.c:46-51 | at most five packets plus one per 50 ms of any span are allowed |
| `RateLimiter.SpacedAllowed` | awgsrc/src/ratelimiter.c:128-142 | packets at least 50 ms apart all pass |
| `RateLimiter.ForgettingInvisibleIffFull` | awgsrc/src/ratelimiter.c:128-167 | dropping an entry changes no later answer if and only if its bucket is full |
| `RateLimiter.TouchedEntryDoublesBurst` | awgsrc/src/ratelimiter.c:69-79 | such a drop gives a source that has just spent its burst a second one |
| `RateLimiter.CollectionInvisible` | awgsrc/src/ratelimiter.c:67-168 | over every run with forward time, room in the table and careful visits, all answers equal those of a limiter that never forgets |
| `RateLimiter.VisitInvisibleIff` | awgsrc/src/ratelimiter.c:67-94 | a bucket visit is invisible to all later packets if and only if every touched entry it reaches has a full bucket |
| `RateLimiter.RunRateBound` | awgsrc/src/ratelimiter.c:46-168 | in such runs each source passes at most five packets plus its rate, collector included |
| `RateLimiter.EntriesBounded` | awgsrc/src/ratelimiter.c:53-58 | linked plus not yet freed entries never exceed the limit |
| `RateLimiter.Limiter.constructor` | awgsrc/src/ratelimiter.c:178-196 | an empty table with room for eight entries per bucket |
| `RateLimiter.Limiter.Check` | awgsrc/src/ratelimiter.c:96-168 | one packet: passed exactly with 50 ms worth of tokens, or as a new source with room and memory; the new entry; the counter raised first and lowered on failure |
| `RateLimiter.Limiter.Collect` | awgsrc/src/ratelimiter.c:67-94 | an entry used no later than the pass began is dropped exactly if idle for more than a second; the teardown form keeps none; the counter waits for the deferred frees |
| `RateLimiter.Limiter.VisitBucket` | awgsrc/src/ratelimiter.c:75-88 | unlinking entry by entry while the bucket's list is walked comes to removing exactly those that fail the test; all stay counted until freed |
| `IndexTable.FindIff` | awgsrc/src/peerlookup.c:201-226 | a lookup finds an entry exactly if it is listed under that index |
| `IndexTable.StepKeeps` | awgsrc/src/peerlookup.c:119-199 | every locked section and every unlocked draw keeps each entry in its bucket, once, and indices unique |
| `IndexTable.RunKeeps` | awgsrc/src/peerlookup.c:119-199 | so does every interleaving, whatever the unlocked search saw |
| `IndexTable.StepResolves` | awgsrc/src/peerlookup.c:119-226 | what each step does to the map from indices to entries: draws are invisible, a commit binds a free index, a removal frees one, a replacement passes one on |
| `IndexTable.InsertOutcome` | awgsrc/src/peerlookup.c:119-163 | a whole insertion: the entry gets exactly the drawn index if no other entry has it, and otherwise changes nothing and draws again |
| `IndexTable.ReplaceInPlace` | awgsrc/src/peerlookup.c:166-190 | the new entry takes the old one's index and list position in one store |
| `IndexTable.IndexesUnique` | awgsrc/src/peerlookup.c:119-226 | in every reachable state no two listed entries share an index and every listed entry is found by its index |
| `IndexTable.IndexHeld` | awgsrc/src/peerlookup.c:119-226 | an index stays with its entry until that entry itself is taken off |
| `IndexTable.IndexHashtable.Lookup` | awgsrc/src/peerlookup.c:201-226 | the walk returns the entry of the index if its kind and its peer allow it |
| `IndexTable.IndexHashtable.TryCommit` | awgsrc/src/peerlookup.c:142-163 | the locked re-check inserts exactly if the index is still free |
| `IndexTable.IndexHashtable.Replace` | awgsrc/src/peerlookup.c:166-190 | succeeds exactly if the old entry is listed |
| `IndexTable.IndexHashtable.Delete` | awgsrc/src/peerlookup.c:192-199 | the entry is off the table and the rest is as before |
| `StagedSend.StepKeeps` | awgsrc/src/send.c:413-484 | every shared access of any sending thread keeps conservation, nonce uniqueness and the counter bound |
| `StagedSend.NoncesUnique` | awgsrc/src/send.c:444-453 | with at most 8130 threads in the send path no nonce is handed over twice, all are below the limit, and packets are conserved |
| `StagedSend.NonceReused` | awgsrc/src/send.c:444-462 | with more threads some run hands nonce 0 over twice |
| `StagedSend.NoncesUniqueIff` | awgsrc/src/send.c:444-462 | so uniqueness over all runs holds if and only if there are at most 8130 threads |
| `StagedSend.DeadKey` | awgsrc/src/send.c:433-462 | an invalid key stays invalid, and once its last numbering threads are gone nothing is numbered or sent under it |
| `StagedSend.FailedBatchReturns` | awgsrc/src/send.c:461-478 | a failed batch goes back whole and in order to the front of the queue, and is never changed before that |
| `StagedSend.StepBalances` | awgsrc/src/send.c:403-484 | every packet offered is staged, held by a thread, handed over or dropped, as often as it was offered |
| `StagedSend.SoloSends` | awgsrc/src/send.c:413-459 | one thread's steps with a usable key: the whole queue leaves in order under the next nonces |
| `StagedSend.SoloRunsOut` | awgsrc/src/send.c:444-478 | past the limit the key is given up and the queue is as it was |
| `StagedSend.SoloReturns` | awgsrc/src/send.c:427-478 | without a usable key the queue is as it was, and an expired key is given up |
| `StagedSend.Sender.SendStaged` | awgsrc/src/send.c:413-484 | one thread: all packets under consecutive nonces, or all of them back, with the exact conditions and the flag |
| `StagedSend.Sender.Enqueue` | awgsrc/src/device.c:215-225 | the oldest packets above 128 are dropped before the new ones are appended |
| `MagicHeader.ApartMeansDisjoint` | awgsrc/src/device.c:606-614 | the range test means no common value, and for proper ranges exactly that |
| `MagicHeader.ParseGenspec` | awgsrc/src/magic_header.c:8-38 | a printed header reads back as itself and is accepted exactly if its range is proper |
| `MagicHeader.ReadUintIff` | awgsrc/src/magic_header.c:8-32 | exactly the unsigned 32-bit decimals are read, with an optional plus sign and newline |
| `MagicHeader.GenspecWritten` | awgsrc/src/magic_header.c:34-38 | the printed form: one number, or two with a dash between them |
| `Classify.Device.constructor` | awgsrc/src/device.c:341-357 | the defaults are an accepted configuration |
| `Classify.Device.PostConfig` | awgsrc/src/device.c:558-625 | accepted exactly under the limits in numbers, ranges pairwise apart and special packets set up; the upper junk bound is spread in 16-bit arithmetic |
| `Classify.Device.RangesApart` | awgsrc/src/device.c:606-614 | the nested loops decide pairwise disjointness |
| `Classify.SkBuff.Prepare` | awgsrc/src/receive.c:30-74 | classification by length and type value in order, junk pulled for the kind found and restored otherwise; the returned number is 3 for a cookie reply |
| `Classify.TypeWritten` | awgsrc/src/receive.c:38-68 | the type value is the little-endian word right behind the kind's junk |
| `Classify.DispatchedByKind` | awgsrc/src/receive.c:121-215 | under disjoint ranges a classified packet reaches the handler of its kind only, with its structure's length; without a valid MAC it is dropped, under load without a cookie it is answered with one; the unknown-type branch and the worker's warning are never reached |
| `Classify.ReceivedAsSentIff` | awgsrc/src/receive.c:30-74 | every message sent as kind k is received as k if and only if no earlier kind is confusable with it, a condition on the configuration alone |
| `Classify.EqualJunkReceivedAsSent` | awgsrc/src/receive.c:30-74 | with S1 = S2 = S3 = S4 every message is received as the kind it was sent as |
| `Classify.DifferentJunkConfuses` | awgsrc/src/receive.c:38-52 | an accepted configuration with different S values and a response that is received as an initiation |
| `JunkText.ReadLiteral` | awgsrc/src/junk.c:11-56 | the backward loop decodes the pairs of digits |
| `JunkText.ParseTags` | awgsrc/src/junk.c:184-233 | the list built by prepending is the reverse of the tags in text order |
| `JunkText.ReadDescribed` | awgsrc/src/junk.c:184-233 | every list of describable tags is read back from its description, in order, literal bytes included |
| `JunkText.ReadIntIff` | awgsrc/src/junk.c:57-110 | exactly the signed 32-bit decimals are read as lengths |
| `JunkText.KeysRead` | awgsrc/src/junk.c:57-182 | the key of each tag |
| `JunkText.OneTagRead` | awgsrc/src/junk.c:184-233 | a tag stands between angle brackets, its value behind a space |
| `JunkText.HexDigits` | awgsrc/src/junk.c:11-56 | either case of a hexadecimal letter has the same value |
| `JunkPacket.WritesInsideIff` | awgsrc/src/junk.c:282-341 | for an admitted description every byte is written inside the packet if and only if each part that writes has room: a length within the limit, and 32-bit sums before and behind it that are not negative |
| `JunkPacket.InsideIffFits` | awgsrc/src/junk.c:282-319 | without negative lengths that is exactly when the true sum is within the limit, so a wrapped sum always ends in a write outside |
| `JunkPacket.EndToEndIff` | awgsrc/src/junk.c:282-319 | the parts stand end to end if and only if no length is negative and the true sum is within the limit |
| `JunkPacket.SetupAndFillIff` | awgsrc/src/junk.c:282-341 | setting up and refilling both stay inside the packet exactly if all writes are inside |
| `JunkPacket.PaintedIsBlank` | awgsrc/src/junk.c:304-319 | the layout loop of a fitting description leaves the literals in place and zeros elsewhere |
| `JunkPacket.WrappedSumOverruns` | awgsrc/src/junk.c:282-295 | a description whose 32-bit sum wraps passes the test and writes outside |
| `JunkPacket.NegativeLengthOverruns` | awgsrc/src/junk.c:125-157 | so does one with a negative length: ten bytes written into five |
| `JunkPacket.NegativeRandomOverruns` | awgsrc/src/junk.c:104-106 | for random bytes a negative length becomes a huge unsigned one |
| `JunkPacket.NegativeLengthOverlaps` | awgsrc/src/junk.c:125-157 | another stays inside, and random bytes lie over a literal |
| `JunkPacket.SlotsDisjoint` | awgsrc/src/junk.c:304-319 | parts of different tags do not overlap |
| `JunkPacket.WindowsOrdered` | awgsrc/src/junk.c:304-319 | modifier windows are inside the packet and one after the other |
| `JunkPacket.RefillIsConcat` | awgsrc/src/junk.c:332-341 | applying modifiers, at every send, gives the concatenation of literals and fresh bytes |
| `JunkPacket.LiteralInPlace` | awgsrc/src/junk.c:304-341 | each literal stands unchanged at its offset in the finished packet |
| `JunkPacket.WindowOf` | awgsrc/src/junk.c:304-319 | each generated part has a window of its own kind at its place |
| `JunkPacket.GeneratedInPlace` | awgsrc/src/junk.c:304-341 | and its fresh bytes stand there after every refill |
| `JunkPacket.ResultIff` | awgsrc/src/junk.c:250-330 | without negative lengths a description is done up to 65535 bytes and refused above |
| `JunkPacket.SumSizes` | awgsrc/src/junk.c:282-290 | the sum over the list in 32-bit arithmetic |
| `JunkPacket.JunkSpec.Setup` | awgsrc/src/junk.c:250-330 | the outcome of every description, and the packet and windows it leaves |
| `JunkPacket.JunkSpec.ApplyMods` | awgsrc/src/junk.c:332-341 | the loop fills each window with its generator's bytes and nothing else |
| `Protobuf.AppendVarint` | xray/api.go:200-206 | the loop appends the base-128 form, at most ten bytes for every 64-bit value |
| `Protobuf.AppendStringField` | xray/api.go:191-198 | one record, nothing for an empty value |
| `Protobuf.ShortRecord` | xray/api.go:191-198 | the bytes of a short record in numbers: field number and wire type 2, length, value |
| `Protobuf.ForkAccount` | xray/api.go:179-185 | the bytes decode to exactly the non-empty fields |
| `Protobuf.VarintRoundTrip` | xray/api.go:200-206 | a varint followed by anything reads back as its value |
| `Protobuf.DecodeEncode` | xray/api.go:179-206 | for every field list the bytes decode to the non-empty fields, numbers modulo 2^61 |
| `Protobuf.RoundTripIff` | xray/api.go:191-198 | they come back unchanged if and only if every number sent is below 2^61 |
| `Protobuf.HighNumberFolds` | xray/api.go:191-198 | number 2^61 + 1 is sent, and read, as number 1 |
| `Protobuf.Injective` | xray/api.go:179-206 | two field lists give the same bytes if and only if their non-empty fields agree |
| `Protobuf.AccountSeen` | xray/api.go:179-206 | for increasing numbers a reader sees every field's value and nothing else |

## Left out

- Hardware memory order: all machines are sequentially consistent.
- AllowedIpsTable memory: nodes live in a map from addresses to records, not in Dafny objects; freed nodes stay in it (the kernel frees them once no reader can hold them).
- AllowedIpsState.Lookup: the retry when a found peer has no references left, and the taking of the reference (the retry at a cleared peer is in `TrieReader.Load`).
- AllowedIpsReader and ReaderRemoval: a lookup that spans several updates, for which the promise is false (`TwoUpdatesMix`).
- PrevQueue and CryptPipeline: fixed-width counters and CPU selection.
- Wakeups: a look that returns NULL is one step, placed at the moment of the call at which the queue was empty or an enqueue stood between its stores (`PrevQueue.NullOnlyIfEmptyOrPending`); a thread schedules what it settled before it takes on other work.
- ReplayWindow: bitmap words are sequences of 64 booleans; the lock around the window is one atomic call.
- Noise: each create, consume and begin-session call is atomic, although the code drops its locks in between; keys and ciphertexts are terms of a free algebra with the laws of Diffie-Hellman, HKDF and AEAD; transport messages under the session keys, identity hiding, cookies and the mac fields are not modelled.
- Noise.Device.ConsumeInitiation: the check of the rate of initiations and of replay happens at the commit, as one step.
- Keypairs: key material and the expiry of current keypairs; `RunEvents` ignores events of packets that do not exist.
- OvpnLease.LeaseStore.LeaseBlockIp: for the accept strategy past the ghost test only the files and the result are described; that the evicted device goes away, and that the fallback victim lies in the caller's block, is not claimed because the code does not ensure it.
- OvpnRuns: connect hooks run one at a time on both transports, the status view lists every device connected for longer than the reclaim grace, blocks of different accounts are disjoint, and session keys are not reused while connected.
- RateLimiter: hash chains are one map with a hash function; two packets of a new source that race past the walk and create two entries; a packet holding an entry the collector has just unlinked.
- RateLimiter.CollectionInvisible: boot time below 2^63 ns.
- IndexTable: readers that hold a stale list pointer across a re-insertion; the write of a dead peer's reference in the lookup; insert and replace of one entry exclude each other, as the handshake lock makes them.
- StagedSend: what becomes of a batch after it was handed over (see CryptPipeline), keypair lookup (the key a thread finds is arbitrary), keepalive packets.
- Classify: skb linearisation and the checks of UDP lengths in front of the classifier; cookie and mac computation (`mac` is an input).
- Classify.ReceivedAsSentIff: a transport message may have any length from 32 bytes, while `send.c:186-208` pads the plaintext to a multiple of 16 or clamps it to the MTU; for messages sent as transport the condition is exact over all MTUs, not for a given one.
- Classify.Device.PostConfig: the comparison of the unsigned packet count with zero, which is never true.
- JunkPacket: allocation failures inside the tag parsers; the generators' bytes are inputs of the right length.
- JunkPacket.JunkSpec.Setup: a description whose parts leave the packet ends in the outcome `Overrun`; what the code then overwrites is not described.
- Protobuf: the type URL; negative field numbers.
- Packet-level kernel plumbing (sockets, netlink, routing, device setup), timers, peers and cookies.
- Panel code outside the two files named above (web, subscription, database, configuration): string building, storage and wrappers that would only add easy members.
- File, lock and process calls in `main.go`: directories are maps with times, the lock is atomicity of a hook.
