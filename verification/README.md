# A verified model of the tunnel client's controller

The repository is a WireGuard-style client for one peer. This project models the parts of its
`controller` package whose behaviour the code itself decides, and proves what they are for.
Verify it with `dafny verify dfyconfig.toml`.

- **Allowed addresses** (`PrefixTree.dfy`, `Trie.dfy`, `Routing.dfy`). The path-compressed trie, updated in
  place, holds a table of prefixes; lookup is longest-prefix match on that table, and insertion updates one
  entry of it. Removal of a peer is exact if and only if a condition on the tree holds, and so is each lookup
  after it; so is any sequence of insertions and removals.
- **Replay window** (`Replay.dfy`). The ring bitmap, for both word sizes, answers like an unbounded set of
  accepted counters.
- **Handshake and keys** (`Symbolic.dfy`, `Tai64.dfy`, `IndexTable.dfy`, `Noise.dfy`, `NoiseProtocol.dfy`,
  `NoiseFramework.dfy`). Byte strings are symbolic terms. `NoiseProtocol` has the methods, on arrays and fields;
  each is proved equal to a function of `Noise`. `NoiseFramework` runs the pattern IKpsk2 token by token, as the
  Noise Protocol Framework defines it, and the messages are proved to be its messages.
- **Runs of one device** (`PeerRuns.dfy`, `Rotation.dfy`, `IndexRuns.dfy`, `IndexLeak.dfy`, `KeyRuns.dfy`,
  `Derivations.dfy`). What one device keeps over every run, under any messages: its slots and which pair is in
  use, its index table to the last entry, its accepted messages, that no two of its key pairs share a key, and
  the seven inputs that each was derived from.
- **Two devices** (`Agreement.dfy`, `Sessions.dfy`, `Authenticity.dfy`). One exchange, and then every run of two
  devices over a network that loses, repeats and reorders messages and rewrites what is not sealed; and the same
  over a network that sends whatever can be computed without the static private keys.
- **Pipelines** (`Pipeline.dfy`, `Progress.dfy`, `Send.dfy`, `Receive.dfy`, `Receiver.dfy`, `EndToEnd.dfy`). The producer, the
  workers, the consumer and the overflow of both queues are steps of a state machine, interleaved freely; the
  safety theorems hold for every schedule and any number of workers, progress for one worker or more. Both
  directions are instances of it, and are joined end to end on the key pairs of two devices that both send.
- **Rate limiter** (`Ratelimiter.dfy`). A bound for every interval, and garbage collection that no one can see.
- **Cookies** (`Cookie.dfy`) and **HChaCha20** (`XChaCha.dfy`). The timed challenge, with its exact conditions,
  and the unrolled rounds against the quarter rounds of RFC 8439. A 32-bit word is a number below 2^32 with
  explicit wrap-around, and its bit operations are defined bit by bit.
- **Initiation pacing** (`Timers.dfy`).

Where the code differs from what its names and comments suggest, the model follows the code:

- `RemovePeer` drops `child[1]` of a node that still has two children (`PrefixTree.Discards`,
  `PrefixTree.RemoveCanDiscard`).
- The responder branch of `NewKeyPair` overwrites two slots without deleting their indices. The index table
  holds nothing but the slots and the handshake, at most four entries, exactly after runs in which no
  initiation was accepted while one of these slots was taken (`IndexRuns.TableAfterRun`); otherwise pairs stay
  behind in it, and their number has no bound (`IndexLeak.TableUnbounded`).
- `Allow` compares strictly: a burst is four packets, not five (`Ratelimiter.BurstPasses`, `Ratelimiter.BurstIsFour`).
- The `break` at the handshake deadline leaves the `select` only (`Timers.DeadlineEndsNothing`,
  `Timers.SentAfterDeadline`).
- The static key sealed in an initiation is opened and not compared with the configured one: reading agrees with
  the framework's exactly for initiations that carry it (`NoiseFramework.InitiationIsRead`,
  `NoiseFramework.AnyStaticKeyOpens`).
- The nanoseconds of a timestamp wrap every 2^32 ns, not every second (`Tai64.LaterTimestamps`,
  `Tai64.WrapGoesBack`).
- `_WordLogSize` is the logarithm of the word's size in bytes: the ring has 256 or 512 words.

## Model

| member | source | states |
|---|---|---|
| PrefixTree.CommonIsGreatest | controller/trie.go:40-85 | two addresses agree on their first n bits exactly when n is at most the common length |
| Addresses.CommonBits | controller/trie.go:40-85 | the byte-wise loop returns the length of the longest common prefix in bits |
| Tries.Trie.ChooseIsBit | controller/trie.go:110-112 | the stored byte index and shift pick bit number cidr of an address |
| Tries.Insert | controller/trie.go:114-176 | in-place insertion builds the tree of the functional insertion, using the old nodes and fresh ones only |
| Tries.Split | controller/trie.go:141-175 | the branch that splits: the new node becomes the parent, or both hang from a new peerless node |
| PrefixTree.InsertUpdates | controller/trie.go:114-176 | insertion keeps the weak trie invariant and changes the table of entries at one prefix only, overwriting it |
| Tries.InsertEntry | controller/trie.go:114-176 | the same, of the nodes in the heap |
| Tries.Lookup | controller/trie.go:178-192 | the loop returns the longest-prefix match in the table of entries |
| PrefixTree.LongestMatch | controller/trie.go:178-192 | the reference: the longest prefix of the address, of at most a given length, that is in the table, or none |
| PrefixTree.LookupIsBest | controller/trie.go:178-192 | the walk from any node gives the longest-prefix match below it, or what was found before |
| PrefixTree.NoneStale | controller/trie.go:87-176 | after any sequence of insertions and removals, an entry of the tree is the last peer written to its prefix, and that peer was not removed since |
| PrefixTree.AlwaysLatest | controller/trie.go:87-176 | throughout a sequence of insertions and removals the tree holds the last peer of every prefix that was not removed since, and nothing else, if and only if no removal in it meets a node that discards |
| PrefixTree.OnePeerNeverDiscards | controller/trie.go:103-107 | with a single peer, as in this client, no removal of any sequence does |
| PrefixTree.LookupAfterWrites | controller/trie.go:87-192 | then a lookup finds the last peer of the longest prefix of the address that has one, and nothing if there is none |
| PrefixTree.AllowedIPsExact | controller/trie.go:203-228 | a prefix is listed for a peer exactly when it is the peer's entry, and never twice |
| Tries.AllowedIPs | controller/trie.go:203-228 | appends those entries in prefix order, as addresses with masks, 4-byte ones in the 16-byte form |
| Tries.RemovePeer | controller/trie.go:87-108 | in-place removal builds the tree of the functional removal and allocates nothing |
| PrefixTree.RemoveWellFormed | controller/trie.go:87-108 | removal keeps the trie invariant |
| PrefixTree.RemoveKeepsOnly | controller/trie.go:87-108 | what is left was there before and is not the removed peer's |
| PrefixTree.RemoveKeepsAll | controller/trie.go:87-108 | unless a node of the peer keeps two children and the second has another peer, every other entry stays |
| PrefixTree.RemoveLoses | controller/trie.go:103-107 | if there is such a node, some entry of another peer is lost |
| PrefixTree.RemoveExactUnlessDiscards | controller/trie.go:87-108 | the table afterwards is the table without the peer if and only if there is no such node |
| PrefixTree.LookupAfterRemove | controller/trie.go:87-108 | then every lookup is longest-prefix match without the peer; with a single peer nothing is found |
| PrefixTree.LookupAfterRemoveExact | controller/trie.go:87-192 | for each address, the lookup after a removal is longest-prefix match without the peer if and only if its path does not enter the second side of such a node where another peer would be found |
| PrefixTree.RemoveCanDiscard | controller/trie.go:103-107 | three insertions after which removing one peer loses another's route |
| Tries.RemoveEntries | controller/trie.go:87-108 | the if-and-only-if, of the nodes in the heap |
| Routing.RoutingTable.Reset | controller/routing.go:27-33 | both tables become empty |
| Routing.RoutingTable.Insert | controller/routing.go:43-56 | updates the table of the address's family and not the other; any other length panics and changes nothing |
| Routing.RoutingTable.LookupIPv4 | controller/routing.go:58-62 | longest-prefix match in the 4-byte table |
| Routing.RoutingTable.LookupIPv6 | controller/routing.go:64-68 | longest-prefix match in the 16-byte table |
| Routing.RoutingTable.RemovePeer | controller/routing.go:35-41 | removal in both families, each exact under its own condition |
| Routing.RoutingTable.AllowedIPs | controller/routing.go:17-25 | the peer's entries of both families, 4-byte ones first |
| Replay.ReplayFilter.Init | controller/replay.go:34-37 | whatever the old ring held, the filter then means that nothing was accepted |
| Replay.ReplayFilter.ClearWords | controller/replay.go:50-54 | the loop clears the words that the window moves onto and no other |
| Replay.ReplayFilter.ValidateCounter | controller/replay.go:39-73 | the answer and the new state are those of a window over an unbounded set of counters, for both word sizes |
| Replay.AdvanceKeepsRing | controller/replay.go:46-55 | clearing the passed words keeps the ring in agreement with the set |
| Replay.SetKeepsRing | controller/replay.go:64-72 | the tested bit is set exactly for accepted counters, and setting it records the counter alone |
| Replay.CheckAll | controller/replay.go:34-73 | from a ring with arbitrary contents, every answer of any sequence of calls is the set's answer |
| Replay.AfterInvariant | controller/replay.go:39-73 | the window's edge is the largest accepted counter, 0 at first; all accepted counters were presented and are below the limit |
| Replay.AcceptedAtMostOnce | controller/replay.go:39-73 | no counter is accepted twice |
| Replay.FirstTimePasses | controller/replay.go:39-73 | a counter not seen before passes exactly when it is below the limit and at most the window size behind |
| Replay.RefusedStaysRefused | controller/replay.go:57-62 | a refused counter is refused for ever |
| Symbolic.SecretsMeet | controller/noise_helpers.go:92-97 | both sides of an exchange compute the same secret |
| NoiseHelpers.OutputIsExpand | controller/noise_helpers.go:35-58 | the chain of MACs is the expand step of section 2.3 of RFC 5869 with empty info |
| NoiseHelpers.KDF1 | controller/noise_helpers.go:35-39 | the first HKDF block of the old key, also when the output array is the key |
| NoiseHelpers.KDF2 | controller/noise_helpers.go:41-48 | the first two blocks of the old key, also when an output array is the key |
| NoiseHelpers.KDF3 | controller/noise_helpers.go:50-58 | the first three blocks of the old key, also when an output array is the key |
| NoiseHelpers.HkdfInjective | controller/noise_helpers.go:35-58 | an output determines key, input and position |
| Tai64.Timestamp | controller/tai64.go:16-24 | the array holds the seconds and the low 32 bits of the nanoseconds, big-endian |
| Tai64.TimestampReads | controller/tai64.go:10-24 | the first eight bytes are 2^62 + 10 plus the seconds, the last four the low 32 bits of the nanoseconds |
| Tai64.GreaterIsNumeric | controller/tai64.go:26-28 | byte comparison is comparison of the numbers |
| Tai64.AfterIsLexicographic | controller/tai64.go:16-28 | timestamps compare as (seconds, low 32 bits of nanoseconds) |
| Tai64.LaterTimestamps | controller/tai64.go:16-28 | a later reading has a later timestamp if and only if its second is later or no multiple of 2^32 ns lies between |
| Tai64.WrapGoesBack | controller/tai64.go:20 | two readings one nanosecond apart whose timestamps go back |
| IndexTables.IndexTable.NewIndex | controller/index.go:52-86 | returns a drawn number that is not zero and was not in use, mapped to the handshake |
| IndexTables.IndexTable.Delete | controller/index.go:37-44 | removes one index; index 0 is ignored |
| NoiseProtocol.Handshake.SealInitiation | controller/noise_protocol.go:163-230 | the in-place mixing leaves the handshake and the message of the value function |
| NoiseProtocol.Handshake.ConsumeInitiation | controller/noise_protocol.go:239-318 | accepts exactly the initiations whose boxes open and whose timestamp is later and not too soon, and stores their transcript |
| NoiseProtocol.Handshake.SealResponse | controller/noise_protocol.go:341-384 | the in-place mixing leaves the handshake and the message of the value function |
| NoiseProtocol.Handshake.ConsumeResponse | controller/noise_protocol.go:402-472 | accepts exactly the responses whose box opens under the transcript, in the right state |
| NoiseProtocol.Handshake.DeriveKeyPair | controller/noise_protocol.go:489-535 | the keys in the order of the role, after which the secrets are zero |
| NoiseProtocol.Handshake.Erase | controller/timers.go:218-222 | erases keys, transcript and index, and leaves the state as it is |
| NoiseProtocol.Peer.CreateMessageInitiation | controller/noise_protocol.go:154-232 | the device afterwards, with the old index freed and an unused nonzero one taken, or no message at all |
| NoiseProtocol.Peer.ConsumeMessageInitiation | controller/noise_protocol.go:234-321 | the device afterwards, unchanged when refused |
| NoiseProtocol.Peer.CreateMessageResponse | controller/noise_protocol.go:323-387 | the device afterwards, or an error that changes nothing |
| NoiseProtocol.Peer.ConsumeMessageResponse | controller/noise_protocol.go:389-478 | only a response to an index of the handshake is tried; the device is unchanged when refused |
| NoiseProtocol.Peer.NewKeyPair | controller/noise_protocol.go:483-577 | the new pair, its index entry and the rotation of the slots, for both roles |
| NoiseProtocol.Peer.ConfirmKeyPair | controller/receive.go:482-495 | a packet under the next pair makes it current and deletes the previous one's index |
| NoiseProtocol.Peer.ZeroAllKeys | controller/timers.go:193-223 | the slots, their indices, the handshake's index and its secrets are gone |
| NoiseFramework.InitiationIsFirst | controller/noise_protocol.go:149-232 | the initiation is the first message of IKpsk2 (sections 5.3 and 9.4 of revision 34 of the Noise Protocol Framework), with the timestamp as payload, and leaves its hash and chain key |
| NoiseFramework.ResponseIsSecond | controller/noise_protocol.go:323-387 | from the state in which an initiation was read, the response is the second message with an empty payload |
| NoiseFramework.InitiationIsRead | controller/noise_protocol.go:234-294 | an initiation that carries the configured static key opens if and only if the framework reads it with that key and a timestamp, and both end in the same state |
| NoiseFramework.AnyStaticKeyOpens | controller/noise_protocol.go:249-266 | the condition is needed: initiations open whatever static public key they carry |
| NoiseFramework.ResponseIsRead | controller/noise_protocol.go:389-475 | a response is accepted if and only if the framework reads it, and both end in the same state |
| NoiseFramework.PairIsSplit | controller/noise_protocol.go:489-513 | the keys of a pair are the two that the framework splits off, the first for what the initiator sends |
| PeerRuns.NewKeyPairKeeps | controller/noise_protocol.go:483-577 | rotation keeps slots and index table in agreement |
| PeerRuns.HandleInitiationKeeps | controller/receive.go:375-400 | answering any initiation keeps them in agreement and makes at most one pair |
| PeerRuns.ResponseCompletesLatest | controller/receive.go:427-447 | an accepted response names the current handshake's index, gives exactly one new pair that index, and leaves no handshake to complete |
| PeerRuns.ReceiveKeeps | controller/receive.go:484-495 | confirmation keeps slots and index table in agreement |
| PeerRuns.ZeroKeeps | controller/timers.go:193-223 | erasure keeps them in agreement |
| PeerRuns.StepKeepsCount | controller/noise_protocol.go:483-547 | pairs made, plus one for a handshake still open, never outnumber initiations created plus initiations accepted |
| PeerRuns.StepKeepsKeys | controller/noise_protocol.go:555-573 | a responder's pair is current only after a packet under it; a pair that stopped being current is neither current nor next |
| PeerRuns.StepKeepsResponses | controller/noise_protocol.go:402-457 | the open handshake's ephemeral key is not one that an accepted response answered |
| PeerRuns.StepKeepsLog | controller/noise_protocol.go:296-316 | accepted timestamps strictly increase, and acceptances are more than the initiation rate apart |
| PeerRuns.RunKeepsInv | controller/noise_protocol.go:154-577 | all of these hold after every run, under any messages |
| PeerRuns.EveryRun | controller/noise_protocol.go:154-577 | the same from a new device, spelled out |
| PeerRuns.NoSecondPair | controller/noise_protocol.go:389-478 | a sealed box that produced a key pair never produces another, whatever headers it comes with |
| PeerRuns.NoSecondAcceptance | controller/noise_protocol.go:296-304 | an accepted initiation is never accepted again |
| PeerRuns.AcceptedExactly | controller/noise_protocol.go:275-304 | an initiation is accepted if and only if its boxes open, its timestamp is a greater number than every accepted one, and more than 50 ms have passed since every acceptance |
| PeerRuns.NeverCurrentAgain | controller/noise_protocol.go:555-573 | a pair that left the current slot never returns to it |
| Rotation.ResponseRotates | controller/noise_protocol.go:555-568 | after an accepted response the new pair is current and the old current one previous, or, while a pair waits, the new one waits and that one is previous; the index of the old previous pair is gone from the table and no other |
| Rotation.AnswerRotates | controller/noise_protocol.go:570-573 | after an answer the new pair waits, no pair is previous, and the current one stays |
| Rotation.PacketRotates | controller/receive.go:482-495 | a packet under the waiting pair makes it current, the old current one previous and its place empty, and removes the index of the old previous pair; any other packet changes nothing |
| Rotation.StepSlots | controller/noise_protocol.go:483-577 | the three slots after every step, from what completed, was answered, confirmed or erased |
| Rotation.InitiatorUsesLatest | controller/noise_protocol.go:565-568 | in every run of a device that only initiates, from an accepted response until the next or an erasure its pair is current and the one before it previous |
| Rotation.ResponderUsesConfirmed | controller/receive.go:482-495 | in every run, an answer's pair becomes current with the first packet under it and stays so until a pair is made or erased; until that packet the old one stays |
| Rotation.HandshakeEstablishes | controller/receive.go:375-495 | an undisturbed exchange and one packet leave both devices with mirrored pairs current, each found in the other's table at the index that packets name |
| IndexRuns.StepStrays | controller/noise_protocol.go:539-574 | pairs that are in the index table and in no slot are made exactly by accepting an initiation while the previous or the next slot is taken, namely those in these slots; no step removes one |
| IndexRuns.RunStrays | controller/noise_protocol.go:539-574 | after every run they are those from before and the ones so overwritten during the run |
| IndexRuns.TableSize | controller/index.go:37-86 | the table has one entry for each key pair that it holds, and one for the handshake while it has an index |
| IndexRuns.TableAfterRun | controller/noise_protocol.go:539-574 | after every run of a new device the table holds the slots, those pairs and the handshake; there are none of them if and only if no initiation was accepted while the previous or the next slot was taken, and then it has at most four entries |
| IndexRuns.InitiatorTableSmall | controller/noise_protocol.go:539-574 | on runs that answer no initiation the index table has at most three entries |
| IndexRuns.OverwrittenPairsLinger | controller/noise_protocol.go:570-573 | a pair that a responder's rotation overwrites stays in the index table, in no slot, through every continuation of the run |
| IndexLeak.TableGrows | controller/noise_protocol.go:570-573 | for every number of answers there is a run of a new device after which every pair but the last is in the table and in no slot |
| IndexLeak.TableUnbounded | controller/noise_protocol.go:539-574 | so there are runs after which the table has as many entries as indices allow |
| KeyRuns.AnsweredPair | controller/noise_protocol.go:341-535 | the pair of an answer comes from one chain key, into which the drawn private key and the secret with the initiation's key were mixed |
| KeyRuns.InitiatedPair | controller/noise_protocol.go:409-535 | the pair of an accepted response comes from one chain key that extends the open initiation's |
| KeyRuns.StepKeepsKeysOwn | controller/noise_protocol.go:154-577 | every pair keeps coming from a private key that no other pair of its role came from |
| KeyRuns.KeysDistinct | controller/noise_protocol.go:489-535 | in every run no two key pairs of a device share a sending key or a receiving key |
| Derivations.StepKeepsInputs | controller/noise_protocol.go:154-535 | every step keeps the following |
| Derivations.EveryPairInputs | controller/noise_protocol.go:154-535 | in every run, under any messages, the chain key of each pair is the construction's with seven inputs mixed in, in order: ephemeral key, its secret with the responder's static key, the secret of the static keys, the other ephemeral key, the secret of both, the secret of the responder's ephemeral with the initiator's static key, preshared key |
| Derivations.SecretsErased | controller/noise_protocol.go:515-519 | after every run, chain key and ephemeral private key are zero unless an initiation waits for its response |
| Agreement.ResponseAgreement | controller/noise_protocol.go:341-475 | an initiator that accepts a peer's sealed box ends with that peer's hash and chain key, and with mirrored keys |
| Agreement.InitiationOpens | controller/noise_protocol.go:182-294 | a responder configured for the initiator recovers its transcript and its timestamp |
| Agreement.ResponseOpens | controller/noise_protocol.go:346-456 | the initiator opens the response of a responder with the same transcript |
| Agreement.HandshakeCompletes | controller/receive.go:375-447 | an undisturbed exchange ends with one new pair on each side, mirroring each other |
| Sessions.AcceptedMirrors | controller/noise_protocol.go:389-547 | of two devices, the one that sealed a box which is accepted was the other, and the keys of the two pairs mirror each other under any headers; that a device sealed it is Authenticity.AcceptedResponseAuthentic |
| Sessions.SystemStepKeepsInv | controller/noise_protocol.go:154-577 | every step of either device, and every packet sent, keeps all of the following |
| Sessions.EveryInitiatorPairMirrored | controller/noise_protocol.go:154-577 | in every run of two devices, with forged initiations and with responses lost, repeated, reordered or under rewritten headers, each initiator pair came from a response of the other device and mirrors its keys; each index mirrors if and only if its header field arrived as it was sent |
| Sessions.MirrorIsInjective | controller/noise_protocol.go:154-577 | in every run the mirror relation between the pairs of the two devices is one to one |
| Sessions.CurrentResponderMirrored | controller/receive.go:482-495 | in every run a responder's pair that is used for sending mirrors a pair that the other device made as an initiator |
| Derivations.EverySessionInputs | controller/noise_protocol.go:154-535 | in every run of two devices, each initiator pair and its mirror come from the inputs of one handshake of four private keys, one that each device drew and the two static ones |
| Sessions.PacketsFindTheirPair | controller/receive.go:174-182 | in every run, while the mirror of a pair is in a slot, the receiver index in packets under the pair is looked up to the mirror if and only if the header field that named it arrived as it was sent; in both directions |
| Sessions.NoReflection | controller/noise_protocol.go:489-535 | no key that a device sends with is one that it receives with |
| Authenticity.DerivedIsClean | controller/noise_helpers.go:92-97 | what the network computes from boxes and its own private keys has no static private key in it, nor the secret of the two static keys, except inside boxes that were sent |
| Authenticity.KeysAreSecret | controller/noise_protocol.go:489-535 | every key of a key pair has that secret in its chain key |
| Authenticity.AcceptedBoxWasSent | controller/noise_protocol.go:402-456 | a box that the network can compute and that a device accepts in a response is one that was sent |
| Authenticity.OpenedBoxWasSent | controller/receive.go:231-273 | a box that the network can compute and that opens under a key pair is one that was sent |
| Authenticity.WildStepKeepsInv | controller/noise_protocol.go:154-577 | every step of either device against this network is one of the restricted network, and keeps each box on it explained by a message of a device |
| Authenticity.AcceptedResponseAuthentic | controller/noise_protocol.go:389-478 | in every run, an accepted response that the network can compute carries a box of the other device |
| Authenticity.OpenedPacketAuthentic | controller/receive.go:231-273 | in every run, a packet that the network can compute and that opens was sealed by the other device under a pair with that key |
| Authenticity.EveryPairAuthentic | controller/noise_protocol.go:154-577 | in every run against this network each pair of an initiator mirrors one of the other device |
| Authenticity.EveryConfirmedPairAuthentic | controller/receive.go:482-495 | and each pair of a responder that is used for sending |
| Authenticity.KeysStaySecret | controller/noise_protocol.go:489-535 | in every such run the network computes no key of a key pair |
| Pipeline.LineKept | controller/send.go:75-105 | overflow and failures take elements out of the line from producer to output, and nothing overtakes |
| Pipeline.OnePlaceKept | controller/send.go:90-105 | unfinished work is in exactly one place, and each step releases exactly what it unlocks or skips |
| Pipeline.ElementKept | controller/send.go:292-328 | locks, drops and results of every element stay consistent with where its work is |
| Pipeline.StepKeepsInv | controller/send.go:75-105 | every step of producer, workers and consumer keeps the invariant |
| Pipeline.PassedInOrder | controller/send.go:355-365 | in every run, what the consumer passes on is finished work of submitted jobs, in order, each at most once |
| Pipeline.PassedUnlessDropped | controller/send.go:359-365 | once the consumer has caught up, a job came out if and only if its element was not dropped |
| Pipeline.LocksUsedWell | controller/send.go:97-100 | no step unlocks an unlocked mutex; a worker skips an element only when nobody waits for it; queues stay bounded |
| Pipeline.AllPassed | controller/send.go:254-263 | without overflow and failures all jobs come out, in order |
| Progress.BlockedIsPending | controller/send.go:359 | a mutex the consumer waits for is that of an element in the work queue, with a worker, or about to be unlocked by the producer |
| Progress.StaffKept | controller/send.go:273-330 | every worker is at its select or has exactly one element in hand |
| Progress.WaitNeverGrows | controller/send.go:90-105 | its distance from being unlocked, counted from its queue position and from what the workers have in hand, never grows, and each step of its helper makes it smaller |
| Progress.HelpfulIsOpen | controller/send.go:284-327 | with one worker or more, busy or not, the helper always has a step to take |
| Progress.ConsumerGetsItsElement | controller/receive.go:466-471 | from every state that can be reached, with any number of workers from one up, that many steps get the consumer its element |
| Progress.SettleStep | controller/send.go:75-105 | every step takes an element out of the line, brings it closer to that, or leaves the same actor to do it |
| Progress.EveryElementSettles | controller/send.go:222-365 | under every weakly fair schedule of producer, workers and consumer, each submitted element is in the end passed on or dropped, however the queues overflow |
| Progress.ConsumerIsServed | controller/receive.go:466-471 | under every such schedule the consumer gets each mutex that it waits for |
| Send.NonceRoutine.Populate | controller/send.go:231-259 | the packet gets the next nonce of the pair at the first look with a usable one, in numbers, or nothing changes, exactly if there is none |
| Send.NonceRoutine.PopulateAll | controller/send.go:222-264 | the loop makes the work elements of the functional assignment |
| Send.FirstUsableExact | controller/send.go:231-239 | the pair taken is that of the first look at which the current pair exists, has used fewer than 2^64 - 17 nonces and is younger than 180 s; none is taken exactly if there is no such look |
| Send.EachRequest | controller/send.go:222-259 | of any sequence of packets, each gets the next nonce of that pair, counted over the packets before, or is given up exactly if there is no such look |
| Send.EveryJobMade | controller/send.go:222-259 | every work element was made for a packet at such a look |
| Send.NoncesAreCounts | controller/send.go:232-259 | a nonce is the number of earlier packets under the same key pair, and below the limit |
| Send.NoncesIncrease | controller/send.go:254-263 | nonces under one key pair strictly increase |
| Send.NoncesIncreasePerKey | controller/send.go:254-263 | where the pairs have distinct keys, as in every run, no key is used twice with one nonce |
| Send.WireNonces | controller/send.go:292-365 | packets on the wire are sealed under their header's counter, and counters strictly increase per key, whatever the schedule |
| Send.WireIsRequested | controller/send.go:292-328 | a packet on the wire names the remote index of its pair and its nonce, and has the payload of one request in a box under the pair's sending key |
| Receive.ReceiveOne | controller/receive.go:473-476 | with the real replay filters of all key pairs, the answer is that of a window over delivered counters, and the filters go on agreeing with theirs |
| Receive.WindowIsDelivered | controller/receive.go:473-476 | a filter remembers exactly what was delivered under its key pair |
| Receive.PassesExactly | controller/receive.go:473-476 | a packet passes if and only if its counter is below the limit, undelivered, and within the window of the highest delivered |
| Receive.DeliveredOnce | controller/receive.go:466-476 | no counter is delivered twice under a key pair |
| Receiver.RoutineSequentialReceiver | controller/receive.go:461-495 | the loop delivers exactly what the windows let through, and leaves slots and index table as the run of those packets does |
| Receiver.ConfirmedByDelivery | controller/receive.go:473-495 | in every interleaving of handshakes and arriving packets from a new device, a responder's pair is used for sending only if a packet under it was delivered |
| Receiver.DeliveryConfirms | controller/receive.go:473-495 | in every interleaving, a packet that is delivered while its pair waits makes the pair current |
| EndToEnd.DeliveredFaithfully | controller/receive.go:231-273 | over a network that may also send a device its own boxes, what is delivered is the payload of exactly one packet given to the other device, and no other delivery is of that packet, where the pairs have distinct and unreflected keys |
| EndToEnd.DeliveredInEveryRun | controller/receive.go:231-273 | the same for the key pairs of any run of two devices that both send |
| EndToEnd.NotLostPasses | controller/receive.go:466-476 | a genuine packet that the queues do not drop reaches the check and passes it if and only if it is undelivered and within the window |
| Ratelimiter.RatelimiterEntry.Charge | controller/ratelimiter.go:129-147 | refills up to the maximum, allows strictly above the cost, and charges only then |
| Ratelimiter.SourceIsAddress | controller/ratelimiter.go:96-109 | two addresses share a bucket if and only if they are the same address, in whichever form |
| Ratelimiter.Ratelimiter.Allow | controller/ratelimiter.go:91-148 | the answer and the new buckets of the functional limiter; a new source starts charged once |
| Ratelimiter.Ratelimiter.GarbageCollectEntries | controller/ratelimiter.go:46-70 | removes entries idle for over a second and changes no other |
| Ratelimiter.RunKeepsOk | controller/ratelimiter.go:91-148 | tokens stay above zero and at most the maximum |
| Ratelimiter.Spent | controller/ratelimiter.go:129-147 | cost of packets allowed plus tokens left never exceed tokens before plus time passed |
| Ratelimiter.RateBound | controller/ratelimiter.go:17-23 | packets allowed in any interval, times their cost, stay below the maximum plus the interval's length |
| Ratelimiter.BurstExact | controller/ratelimiter.go:129-147 | of any number of requests of a source at one instant, in any state, exactly those pass that its tokens pay for with some left |
| Ratelimiter.BurstPasses | controller/ratelimiter.go:141 | they all pass if and only if together they cost less than its tokens |
| Ratelimiter.BurstIsFour | controller/ratelimiter.go:17-23 | of any number of requests of a new source at one instant the first four pass and no more |
| Ratelimiter.CollectionInvisible | controller/ratelimiter.go:46-70 | a limiter collected at any times answers like one never collected |
| Ratelimiter.SourcesIndependent | controller/ratelimiter.go:96-109 | the answers to one source depend on its own requests only |
| Ratelimiter.CollectionIsEvent | controller/ratelimiter.go:46-70 | the loop, reading the clock as it goes, is a collection in the sense of the two theorems |
| Cookie.CookieChecker.CheckMAC1 | controller/cookie.go:64-76 | true exactly for the first MAC of the body |
| Cookie.CookieChecker.CheckMAC2 | controller/cookie.go:78-106 | true exactly for an unexpired secret and the MAC under the source's cookie |
| Cookie.CookieChecker.CreateReply | controller/cookie.go:108-167 | replaces an expired secret, and seals the source's cookie to the first MAC |
| Cookie.CookieGenerator.ConsumeReply | controller/cookie.go:190-215 | takes the cookie exactly from replies that open under the last first MAC |
| Cookie.CookieGenerator.AddMacs | controller/cookie.go:217-248 | writes the first MAC always and the second while the cookie is fresh |
| Cookie.MacsBind | controller/cookie.go:64-106 | the first MAC is that of one public key and body, the second that of one cookie, body and first MAC |
| Cookie.FirstMacBinds | controller/cookie.go:64-76 | with the first MAC that a generator wrote, a message passes a checker if and only if they have the same public key and the body is the one it was written for |
| Cookie.SecondMacBinds | controller/cookie.go:78-106 | with the second MAC, if and only if the secret is fresh, gives this source the generator's cookie, and body and first MAC are those it was written for |
| Cookie.SecretReplaced | controller/cookie.go:116-128 | over any replies to anyone, a secret is replaced exactly when one is made after its age exceeds the refresh time |
| Cookie.ReplyAccepted | controller/cookie.go:130-215 | a reply is accepted exactly by a generator with the checker's public key whose last message it answers |
| Cookie.CookieRoundTrip | controller/cookie.go:78-248 | after a challenge, the second MAC passes if and only if the source is the one challenged, the cookie was fresh when used, and the secret's age has not exceeded the refresh time, whatever other replies came between |
| XChaCha.Permute | controller/xchacha20.go:28-125 | the unrolled loop is ten column and diagonal rounds of sections 2.1 and 2.3 of RFC 8439, for every matrix |
| XChaCha.RotateSplits | controller/xchacha20.go:29-40 | the or of the two shifts moves the low bits up and brings the high ones down |
| XChaCha.RotateInverse | controller/xchacha20.go:29-40 | rotating on by the rest of the word undoes a rotation |
| XChaCha.BytesDecode | controller/xchacha20.go:15-26 | reading the four bytes of a word gives it back |
| XChaCha.InitialIsBytes | controller/xchacha20.go:8-26 | the rounds start from the one matrix whose bytes are "expand 32-byte k", the key and the nonce |
| XChaCha.RowsAreBytes | controller/xchacha20.go:127-134 | the output is the first and the last sixteen bytes of the matrix |
| XChaCha.HChaCha20 | controller/xchacha20.go:8-135 | the output bytes are the first and last rows after the rounds, little-endian |
| XChaCha.QuarterInverse | controller/xchacha20.go:29-40 | a quarter round is undone by an explicit inverse, on both sides |
| XChaCha.RoundsInverse | controller/xchacha20.go:28-125 | the rounds are a bijection of the matrices, with an explicit inverse |
| XChaCha.XChaCha20Poly1305Encrypt | controller/xchacha20.go:137-150 | seals under the derived key and four zero bytes followed by the rest of the nonce |
| XChaCha.XChaCha20Poly1305Decrypt | controller/xchacha20.go:152-165 | opens what was sealed exactly for equal derived keys, equal last eight nonce bytes and equal additional data |
| XChaCha.RoundTrip | controller/xchacha20.go:137-165 | what is sealed opens again |
| Timers.AttemptHandshake | controller/timers.go:266-323 | one attempt, with the waits of each arm of its selects: when it sends, when it is over, and how it goes on |
| Timers.RoutineHandshakeInitiator | controller/timers.go:244-329 | the nested loops send the initiations of the state machine at its times, for all signals, delays and failures |
| Timers.AttemptWaits | controller/timers.go:291-323 | an attempt that sent lasts until RekeyTimeout afterwards, whichever signal ends it; one that failed, two seconds |
| Timers.InitiationsSpaced | controller/timers.go:291-323 | after an initiation that was sent the next is at least RekeyTimeout later; after a failed one, two seconds |
| Timers.InitiationRate | controller/timers.go:244-329 | in any time T at most T / RekeyTimeout + 1 are sent successfully |
| Timers.AttemptEnds | controller/timers.go:291-323 | how long an attempt lasts at least and, but for delays, at most: two seconds, or RekeyTimeout and the jitter |
| Timers.RetriesPrompt | controller/timers.go:266-323 | an initiation that no handshake answers is followed by the next within 5.333 s but for delays, and one that failed within 2 s |
| Timers.FlushesLate | controller/timers.go:255-271 | the queue is flushed at most once for each deadline and not before 90 s after it was set |
| Timers.DeadlineEndsNothing | controller/timers.go:262-271 | runs that differ only in when the deadline fires send the same initiations |
| Timers.SentAfterDeadline | controller/timers.go:262-323 | runs in which the deadline fires and any number of initiations is sent afterwards |
| Timers.BeginsAfterEnds | controller/timers.go:276-322 | in every run a negotiation begins exactly first and after each attempt that could not create its message or that completed, wherever the deadline fired |
| Timers.WaitsAfterEnd | controller/timers.go:244-322 | after every run the routine waits for a signal exactly if it has done nothing yet or its last attempt ended so |

## Left out

- Curve25519, BLAKE2s, ChaCha20 and Poly1305: terms with free constructors; only commutativity of the exchange and opening after sealing are built in.
- Sockets, the TUN device, file descriptors, logging, WiFi monitoring and the exported callbacks: I/O and foreign calls.
- `qt.go`, `uapi.go`, `extend_data.go` and `common/aes_cbc.go`: thin encoders and configuration; the four extra fields of an initiation, which the handshake never reads, are not in the message.
- Wire layouts of the messages and of the transport header: messages are values with fields. `MessageInitiationSize` is smaller than the sum of the struct's fields, so lengths of initiations are not modelled.
- `Peer.Close` and device shutdown: they dereference slots that may be nil; runs end before them.
- `Trie.Count`: returns 0 for every trie.
- Padding in `RoutineEncryption`: `tun.mtu` is never assigned, so the loop adds nothing; padding is the identity.
- The checks of inner headers after the replay check (`receive.go:497` on), key-pair expiry on receipt, keepalive flags and the timers that drive them: they only drop packets or set signals.
- Message buffers and their reuse through the pool: packets are values, so an aliased buffer is not seen. Likewise a trie node holds a copy of its address, where the code keeps the caller's slice.
- Failures of the random source, except that an initiation may fail in `Timers`: drawn keys, indices and secrets are parameters. Private keys of one device are assumed different from each other.
- Atomicity: each message group of `RoutineHandshake`, and the two lock sections of `ConsumeMessageResponse`, are one step; so are `Allow` with its unlocked gap and a garbage collection.
- More than one peer, and the handshake queue: the device has one peer, named by key pairs numbered in order of creation where the code holds pointers; peers are not nil by type.
- The two tables of the rate limiter are one map keyed by family and address.
- Ratelimiter.RateBound: the clock is monotone and gaps between requests of a source stay below 2^63 ns less one bucket, where the code's subtraction saturates.
- Ratelimiter.CollectionInvisible: the same bound on gaps, of the limiter that is never collected.
- Sessions.EveryInitiatorPairMirrored: a response on the network carries a box that a device sealed, under any headers, and initiations are arbitrary; the two devices have different static keys. `Authenticity` proves the former of the symbolic network, which knows the preshared key and every private key but the static ones.
- NoiseHelpers.KDF2: the output arrays are distinct from each other, as in every call.
- NoiseHelpers.KDF3: the output arrays are distinct from each other, as in every call.
- More than one producer or consumer of a pipeline: one of each runs for the one peer. A send or receive on a channel, a lock operation and a store of the dropped flag are single steps. Progress in the end assumes a weakly fair schedule; an idle worker is any of those at their select.
- When the device counts as under load: whether a message meets the cookie check and the rate limiter is left open.
