# A verified model of the Krypton workstation daemon and its tools

krd asks a phone to sign things. It sends encrypted requests, matches the replies that
come back over SQS or Bluetooth to the callers that wait for them, and keeps the pairing
with the phone in memory and on disk. Around it stand a Bluetooth driver that splits and
reassembles messages and decides what to scan for, a `gpg` replacement that reads commits
from git, a tap on the ssh connection, and an installer that edits `~/.ssh/config`. This
project models the state machines, byte formats and text transformations of these parts
and proves what they promise, over every run and every input. Where a promise turns out
not to hold of the code, the model keeps the code as it is and states exactly when the
promise does hold.

| module | what it models |
|---|---|
| `Lru` | the bounded tables of callbacks and acknowledged requests |
| `Crypto`, `Pairing` | message framing over an arbitrary public-key box, the pairing secret, its stored form |
| `Enclave` | the client's shared state as a transition system: `State`, `Event`, `Step`, `Run` |
| `EnclaveChannels` | what a waiter sees on its channel, in every run |
| `EnclaveQueue` | the stored pairing and the outgoing queue, and exactly which steps break their laws |
| `EnclaveOrder` | what becomes of a queued message: to which phone it goes, in which order, and that none is lost or doubled |
| `EnclaveEffects` | what each region of the client achieves, said of the state before and after it |
| `EnclaveClient` | the client as an object; every method is proved to perform steps of `Enclave` |
| `Request` | the select loop of a single request, and its channel |
| `Deadline` | the select loop and the poll loop together: when a request is over |
| `Fragmentation` | splitting for Bluetooth and reassembly per characteristic |
| `Scanner` | which services are wanted, paired and scanned for, under arbitrary callbacks and timers |
| `GitCommit` | reading commits and tags to be signed |
| `SshWire`, `SshPacket` | ssh's struct encoding, the signature payload, packets picked out of a byte stream |
| `TextReplace`, `SshConfig` | leftmost non-overlapping replacement, and the config block built on it |

## Granularity

A step of `Enclave` is a region that the client executes under its lock. The source drops
the lock part-way in two functions, and the model has both readings of each.

- sendMessage checks for the key and then enqueues (krd/enclave_client.go:663-670). `Send`
  does both at once, `SendBegin` and `SendEnd` are the two halves.
- handleCiphertext reads the pairing and works with it afterwards
  (krd/enclave_client.go:592-611). `Inbound(ps, ...)` and `Deliver(ps, ...)` carry the
  pairing that was read, which may have been replaced since. When the frame installs a key,
  `Inbound` does everything at once, while `KeyBegin` installs the key (line 597) and each
  `KeyNext` goes on by one region: take the queue (606-609), save the pairing (611), hand
  over one queued message (616-621). `Enclave.SplitKeyIsInbound` says that the two readings
  agree when nothing runs in between.

`EnclaveChannels`, `Request`, `Deadline` and `EnclaveOrder` hold for every run, with all of
these events in any order, and so do the laws of `EnclaveQueue` on the stored copy and on
the empty queue. What depends on the reading is said in the law itself: a key that is
installed and not saved yet may be lost in a crash, the queue may be full behind a key whose
installer has not taken it yet, and a message sent meanwhile goes first. Each law names the
steps that break it, and these conditions are exact for a single step. The one law stated for
the merged reading only is `EnclaveQueue.QueuedMessagesReachTransport`, for *orderly* runs, in
which queueable sends and key frames are one step each, under the current pairing.

Replies, clocks, nonces, ephemeral keys, transport results, CoreBluetooth callbacks
and the JSON decoder are parameters or events, and none of them is constrained, except that
`Crypto.Correct` (opening inverts sealing) is assumed where a round trip needs it. Saving
is taken to succeed and JSON to be lossless.

## Where the code departs from what it promises

- The Bluetooth round trip fails exactly for messages whose length is a multiple of
  mtu - 1: the last block is then a single byte and read as a control message
  (`Fragmentation.RoundTripIff`). What was buffered is moreover prepended to the next
  message if that fits one block (`Fragmentation.ExactFitCorruptsNext`).
- A message enqueued behind a present key is stranded until the next pairing or restart.
  This happens in the second half of a two-step send, and in a send for a replaced pairing
  that never got its key (`EnclaveQueue.StepStrandsIff`, with the runs `TwoStepSendStrands`
  and `LateSendStrands`; `StrandedForever`).
- If the new pairing still awaits its key, a message sent for the replaced phone goes to the
  new one (the run `EnclaveQueue.LateSendCrosses`). A step lets a message into the wrong
  queue, and hands one to the wrong phone, exactly as `EnclaveOrder.StepOwnIff` and
  `StepRightIff` say; without such enqueues and without late keys every message reaches the
  phone it was meant for (`EnclaveOrder.MessagesReachTheirPhone`).
- A crash between the installation of a key and its saving loses the key: the restarted
  client waits for a key that the phone has already sent (`EnclaveQueue.CrashLosesKey`).
- A wrapped key that is unwrapped for a pairing replaced meanwhile overwrites the stored
  copy of the new pairing and takes the new pairing's queue with it
  (`EnclaveQueue.LateKeyMirrorsIff`, with the run `LateKeyRun`).
- An unpair message from a replaced pairing spares the new pairing but cancels every request
  that waits under it (`EnclaveQueue.StaleUnpairCancelsRequests`).
- A send made while a key is being installed overtakes the messages queued before it
  (`EnclaveOrder.StepOrderIff`, with the run `OvertakingRun`).
- An ssh packet that arrives in two reads is completed with bytes of earlier reads
  (`SshPacket.PartialReadIsCompleted`).
- A failed connection attempt schedules no scan and can stall scanning
  (`Scanner.FailedConnectionStallsIff`, `Scanner.StalledRun`).
- tryRequest can return an ACK, but only together with a timeout (`Request.RequestLaws`).
- The number of received messages in sendRequestAndReceiveResponses is never set
  (krd/enclave_client.go:543-559), so the `n == 0` in the loop's exit test is always true;
  the model has no such count. The early return behind an unexpected send error
  (krd/enclave_client.go:538-539) is dead, see `EnclaveClient.SendMessage`.

## Model

| member | source | states |
|---|---|---|
| `Lru.LookupUnique` | krd/vendor/github.com/golang/groupcache/lru/lru.go:74-84 | in a cache without duplicate keys, Get returns the value of the one entry with that key |
| `Lru.WithoutKeeps` | krd/vendor/github.com/golang/groupcache/lru/lru.go:86-94 | Remove drops exactly the entry with that key and keeps keys distinct |
| `Lru.TouchKeeps` | krd/vendor/github.com/golang/groupcache/lru/lru.go:74-84 | Get changes only the order: same entries, keys still distinct |
| `Lru.AddKeeps` | krd/vendor/github.com/golang/groupcache/lru/lru.go:56-72 | Add keeps keys distinct, holds the new entry, and loses no entry but the one it reports as displaced |
| `Lru.RecencyRun` | krd/vendor/github.com/golang/groupcache/lru/lru.go:56-113 | after every history of operations the list is ordered by when each key was last added or looked up |
| `Lru.LeastRecentlyUsedGoes` | krd/vendor/github.com/golang/groupcache/lru/lru.go:66-70 | after every history, a new key pushes exactly one entry out of a full cache: the one added or looked up least recently |
| `Crypto.BoxRoundTrip` | krypto.go:16-63 | for every message, key pair and nonce, the receiver splits nonce and box where the sender joined them and gets the message back |
| `Crypto.SealRoundTrip` | krypto.go:65-107 | a sealed box opens to its content, ephemeral key and nonce preimage agreeing on both sides; the empty message is refused |
| `Crypto.CorrectSuiteExists` | krypto.go:32-33 | the assumption on the box can be met |
| `Pairing.PersistenceRoundTrip` | pairing_persistence.go:18-38 | storing and loading loses the version and nothing else, in both directions, and every field is stored under its own name |
| `Pairing.EncryptOutcome` | pair.go:72-85 | encryption succeeds iff the phone's key is present and both keys have 32 bytes; it reports waiting for the key iff the key is absent |
| `Pairing.DecryptOutcome` | pair.go:122-135 | without the phone's key decryption reports that it is awaited; otherwise it yields exactly what the box opens |
| `Pairing.FrameKinds` | pair.go:87-120 | what a frame is, by its first byte: 0 a ciphertext, 1 refused, 2 a key, which must open while there is none and is ignored afterwards; anything else, the empty frame included, is refused |
| `Pairing.PairingSecret.UnwrapKeyIfPresent` | pair.go:87-120 | remaining ciphertext, error and new key for every frame; a key is reported iff it was absent before and is present now |
| `Pairing.PairingSecret.ReceiveFrames` | pair.go:87-120 | over any stream a new key is reported at most once, and exactly when the stream installed one |
| `Pairing.KeyIsFirstThatOpens` | pair.go:98-115 | over any stream the key changes at most once, to the content of the first wrapped key that opens; none opens iff none is installed; no other field moves |
| `Pairing.PairedConversation` | krypto.go:109-125 | the wrapped key frame installs the phone's key, and afterwards every message survives in both directions, headers included |
| `Enclave.AllHandedOverIs` | krd/enclave_client.go:616-621 | sending the queued messages one by one hands over exactly that list in order, or nothing if the key is unusable |
| `Enclave.SplitKeyIsInbound` | krd/enclave_client.go:597-621 | installing a key region by region, with nothing in between, does what the merged step does |
| `EnclaveChannels.StepKeepsChannels` | krd/enclave_client.go:527-586 | every step keeps the invariant of tables, channel logs and channel fates |
| `EnclaveChannels.RunKeepsChannels` | krd/enclave_client.go:709-761 | so does every run |
| `EnclaveChannels.ChannelProtocol` | krd/enclave_client.go:719-760 | in every run a channel carries ACKs and then at most one terminal item, all replies with the ID it was registered under; it waits in the table, was pushed out of it, or was closed |
| `EnclaveChannels.UnpairCancelsAll` | krd/enclave_client.go:719-731 | the remote unpair empties the table and gives each pending channel exactly one nil and no other channel anything |
| `EnclaveChannels.FrozenOnceRemoved` | krd/enclave_client.go:748-760 | a channel that left the table never receives anything again, whatever happens |
| `EnclaveChannels.NothingAfterGiveUp` | krd/enclave_client.go:579-586 | giving up on a request ID removes it from the table and silences every channel ever registered under it |
| `EnclaveChannels.FourAcksNeverBlock` | krd/enclave_client.go:454-454 | if no channel received more than four ACKs, no send under the client lock blocks, even when nobody receives |
| `EnclaveChannels.GiveUpBlocksIff` | krd/enclave_client.go:579-586 | giving up blocks iff five ACKs lie unread on the channel |
| `EnclaveChannels.FiveAcksBlock` | krd/enclave_client.go:454-454 | the bound is exact: after a run with n ACKs that nobody takes, giving up blocks iff n is at least five |
| `EnclaveQueue.StepMirrorsIff` | krd/enclave_client.go:129-168 | for every step: the stored pairing stays equal to the one in memory iff the step neither installs a key in the current pairing ahead of saving it nor saves a pairing that is not current |
| `EnclaveQueue.CrashRestoresPairing` | krd/enclave_client.go:227-235 | after every run in which no replaced pairing is saved, at the finest granularity, a crash and Start restore the pairing in every field except the version, and except the key if it is installed and not saved yet; stored iff paired |
| `EnclaveQueue.CrashLosesKey` | krd/enclave_client.go:597-611 | a run whose crash loses the key |
| `EnclaveQueue.StepStrandsIff` | krd/enclave_client.go:662-676 | for every step: nothing is left queued behind a present key, with nobody about to take it, iff the step does not enqueue there: by the second half of a two-step send or by a send for a keyless pairing |
| `EnclaveQueue.EmptyOnceKeyed` | krd/enclave_client.go:605-609 | over every run without such a step the queue is empty whenever the current pairing has its key and its installer has taken the queue |
| `EnclaveQueue.FifoRun` | krd/enclave_client.go:605-622 | over every orderly run, queue and transport reflect the history of sends under the current pairing |
| `EnclaveQueue.QueuedMessagesReachTransport` | krd/enclave_client.go:605-676 | while the key is awaited the queue holds the first 128 queueable messages and nothing is sent; once a usable key is there the transport got exactly those, once each, in order, then everything sent since, and the queue is empty |
| `EnclaveQueue.QueueNeverExceedsBound` | krd/enclave_client.go:667-669 | in every run, orderly or not, the queue holds at most 128 messages |
| `EnclaveOrder.RunKeepsFinishers` | krd/enclave_client.go:597-621 | in every run those who are installing keys do so for different pairings, which have their keys |
| `EnclaveOrder.StepOwnIff` | krd/enclave_client.go:662-676 | for every step: the queue holds only messages for the current pairing iff the step does not enqueue a message for another one into a queue with room |
| `EnclaveOrder.StepRightIff` | krd/enclave_client.go:605-621 | for every step: all messages handed over go to the phone they were meant for iff the step does not hand over one taken from the queue of another pairing with a usable key |
| `EnclaveOrder.MessagesReachTheirPhone` | krd/enclave_client.go:605-676 | over every run without such enqueues and without a late key taking the queue, whatever is handed over under a pairing was meant for it |
| `EnclaveOrder.StepOrderIff` | krd/enclave_client.go:597-676 | for every step: what was sent under the current pairing, followed by what is still held for it, stays what was accepted in that order, iff the step neither sends past waiting messages nor takes them for another pairing |
| `EnclaveOrder.OrderIsKept` | krd/enclave_client.go:597-676 | the same law over every run without such a step |
| `EnclaveOrder.OvertakingRun` | krd/enclave_client.go:597-621 | a run in which the message sent later arrives first |
| `EnclaveOrder.QueuedMessagesAreConserved` | krd/enclave_client.go:605-676 | over every run, a message that entered the queue is still held, was handed over, or was discarded by a new pairing, a restart or an unusable key, and exactly as often as it entered |
| `EnclaveQueue.TwoStepSendStrands` | krd/enclave_client.go:663-670 | a run of four events in which a message is stranded by a two-step send, for any message and any opening key frame |
| `EnclaveQueue.LateSendStrands` | krd/enclave_client.go:531-531 | a run in which a one-step send for the pairing read earlier strands its message behind the key of the new pairing |
| `EnclaveQueue.LateSendCrosses` | krd/enclave_client.go:455-531 | a run in which a message sent for the replaced pairing is handed over, once the new key comes, under the new one |
| `EnclaveQueue.StrandedForever` | krd/enclave_client.go:605-622 | what is queued behind a present key stays queued in every continuation without a new pairing, a restart or a late key |
| `EnclaveQueue.LateKeyMirrorsIff` | krd/enclave_client.go:592-621 | a key finished for the pairing read earlier keeps the stored copy right iff that pairing is still current; it is stored, and takes the queued messages, in any case |
| `EnclaveQueue.LateKeyRun` | krd/enclave_client.go:592-611 | a run of two pairings and a key frame read before the second: mirrored before the last step, not after it, and the replaced pairing is what is stored |
| `EnclaveQueue.StaleTrafficSparesPairing` | krd/enclave_client.go:719-744 | any number of replies and frames for replaced pairings, short of one that installs a key, leave the current pairing, its stored copy, the profile, the queue and the transport alone |
| `EnclaveQueue.StaleUnpairCancelsRequests` | krd/enclave_client.go:719-731 | in every run, an unpair from a replaced pairing leaves the pairing alone and still empties the table, with one nil for every waiting channel |
| `EnclaveClient.EnclaveClient.Unpair` | krd/enclave_client.go:160-168 | pairing and profile are forgotten, in memory and stored, iff the given pairing has the current one's public key; nothing else changes; the stored copy stays right |
| `EnclaveClient.EnclaveClient.Pair` | krd/enclave_client.go:129-158 | a pairing with these keys, this name and version, and without a phone key, ARN or tracking ID is current and stored, with an empty queue; without keys none is; the old profile is gone, and nothing else changes |
| `EnclaveClient.EnclaveClient.Start` | krd/enclave_client.go:227-242 | loads the stored pairing and a stored profile that has a public key, and keeps what is in memory otherwise |
| `EnclaveClient.EnclaveClient.CrashAndStart` | krd/enclave_client.go:227-242 | only the stored pairing comes back, and the stored profile if it has a public key; everything else is as at first, and memory and store agree |
| `EnclaveClient.EnclaveClient.Register` | krd/enclave_client.go:527-529 | a new, empty channel is found under the ID; every other ID keeps its channel, except the one at the back of a full table |
| `EnclaveClient.EnclaveClient.GiveUp` | krd/enclave_client.go:579-586 | the channel found under the ID gets a nil and the ID is deregistered, no other channel or ID is touched; afterwards every channel registered under it is closed or displaced |
| `EnclaveClient.EnclaveClient.SendMessage` | krd/enclave_client.go:662-707 | fails only as SendQueued, iff the key is missing, or as SendError; succeeds iff key and transport do; queues at most 128 messages |
| `EnclaveClient.EnclaveClient.SendQueuedMessages` | krd/enclave_client.go:616-621 | hands over the queued messages in order; its error is that of the last one |
| `EnclaveClient.EnclaveClient.CancelAll` | krd/enclave_client.go:722-729 | the drain loop ends with an empty table, one nil per entry |
| `EnclaveClient.EnclaveClient.Annotate` | krd/enclave_client.go:733-744 | under the current pairing, ARN and tracking ID become the reply's where it has them and stay otherwise, and the stored copy shows both; every other field and pairing stays, and under another pairing everything does |
| `EnclaveClient.EnclaveClient.Answer` | krd/enclave_client.go:746-760 | a reply is appended to the channel registered under its ID and to no other; an ACK is remembered, beside the others while there is room, and deregisters nothing; anything else deregisters its own ID and no other |
| `EnclaveClient.EnclaveClient.HandleMessage` | krd/enclave_client.go:709-761 | an unpair from the current pairing forgets it, and any unpair empties the table; any other reply annotates the current pairing and answers its request as above; the stored copy stays right |
| `EnclaveEffects.EveryStepHasEffect` | krd/enclave_client.go:94-761 | in every run, every pairing, restart, registration, give-up, lookup, reply and cached profile has just the effect stated for it |
| `EnclaveEffects.ProfileSurvivesCrash` | krd/enclave_client.go:237-239 | a cached profile survives a crash iff it has a public key |
| `EnclaveEffects.SplitSendIsSend` | krd/enclave_client.go:662-676 | the two halves of a send, with nothing in between, do what the one step does |
| `EnclaveEffects.ReplyIsHandled` | krd/enclave_client.go:626-640 | a reply that the phone boxes for the workstation reaches handleMessage, whatever the keys and the nonce |
| `EnclaveEffects.KeyIsInstalled` | krd/enclave_client.go:597-621 | a key that the phone wraps for a pairing without one is installed there, stored, and used for the queued messages |
| `EnclaveClient.RefusedFrames` | krd/enclave_client.go:597-634 | which frames are refused, and with which error, by their first byte; a refused frame changes nothing |
| `EnclaveClient.EnclaveClient.HandleCiphertextFor` | krd/enclave_client.go:597-641 | handles a frame for the pairing read earlier: install, ignore, decrypt and dispatch, or nothing; and which error it returns for every frame |
| `EnclaveClient.EnclaveClient.HandleCiphertext` | krd/enclave_client.go:591-641 | the whole function when nothing runs in between, with its error; it reports that pairing never happened iff there is no pairing |
| `EnclaveClient.EnclaveClient.Perform` | krd/enclave_client.go:518-761 | every step of the transition system is performed by the object, and keeps the channel invariant |
| `EnclaveClient.EnclaveClient.LookUp` | krd/enclave_client.go:563-566 | whether a request is pending and was acknowledged; what is found moves to the front and nothing else changes |
| `EnclaveClient.EnclaveClient.PollUntilDone` | krd/enclave_client.go:561-578 | with an advancing clock and any traffic the poll loop ends, at exactly the first round that finds the request gone or its time over, which is the timeout, or one ACK delay later once the request is acknowledged |
| `EnclaveClient.AckProlongs` | krd/enclave_client.go:567-573 | a request that is pending and acknowledged is not given up before its prolonged time is over, and one that is pending not before its timeout |
| `EnclaveClient.EnclaveClient.FinishSend` | krd/enclave_client.go:666-671 | the second half of a send enqueues what its own first half left waiting, wherever it stands, and nothing if that found the key |
| `EnclaveClient.EnclaveClient.SendRequestAndReceiveResponses` | krd/enclave_client.go:518-589 | with an advancing clock, and any traffic before and after each of its steps, the halves of its own send included, it completes that send, enqueuing what found the key missing, and terminates after exactly the first round that finds the request gone or its possibly prolonged time over; all it and the others did is a given run of the transition system that ends by giving up; then its ID is not in the table and its channel is closed or displaced |
| `EnclaveClient.OwnSteps` | krd/enclave_client.go:527-586 | the steps of that run which are the request's own, where they stand: it registers first, sends in two halves, looks at its tables once a round, and gives up last |
| `EnclaveClient.RequestStamped` | krd/enclave_client.go:525-586 | the steps of such a run are in order of time, and the last of them is the give-up |
| `Request.TryRequest` | krd/enclave_client.go:450-514 | for every schedule it returns what the select loop determines; not paired is reported iff there was no pairing at the start, or nothing came and the client is unpaired at the end |
| `Request.Select` | krd/enclave_client.go:473-509 | the loop ends as its specification says, for every schedule: what it returns, when, whether it timed out, and what it did |
| `Request.RestIgnored` | krd/enclave_client.go:488-490 | what is scheduled after the loop ended or its timer fired makes no difference |
| `Request.RequestLaws` | krd/enclave_client.go:475-509 | for every schedule: an ACK is returned only with a timeout, an answer is the first item that is no ACK, onACK runs once iff an ACK was taken, and the delayed alert is pushed at most once, never after an ACK, iff its timer fires first while paired |
| `Request.TimeoutLaws` | krd/enclave_client.go:470-490 | for every schedule: the loop times out only when nothing more comes by the deadline, which is the timeout, or one ACK delay after the last ACK taken, and returns that ACK then, or nil if there was none |
| `Request.AnswerInTimeIsReturned` | krd/enclave_client.go:475-490 | if everything up to the first answer comes in time, each ACK prolonging the wait, that answer is returned, without a timeout |
| `Request.ReplyAnswersRequest` | krd/enclave_client.go:478-488 | in every run of the client, whatever tryRequest returns carries the ID its channel was registered under, and an answer is the last item of that channel |
| `Deadline.EndsAfterGiveUp` | krd/enclave_client.go:475-586 | in every timed run, the select loop is over by its own timeout or one ACK delay after the poller gave up, plus how late it may be in taking what is ready |
| `Deadline.RequestInTime` | krd/enclave_client.go:450-589 | the client performs a request with any traffic and rounds of at most a given length; then no schedule of the select loop on its channel, whatever happens later, outlasts the timeout plus two ACK delays plus one round, plus that lateness |
| `Fragmentation.SplitMessageForBluetooth` | krbtle/krbtle/Bluetooth.swift:727-747 | the loop computes the specified split, or refuses the message |
| `Fragmentation.SplitCarriesMessage` | krbtle/krbtle/Bluetooth.swift:718-747 | a message splits iff its block count fits a byte; blocks count down to 0, fit the mtu, and their data is the message |
| `Fragmentation.StreamOutcome` | krbtle/krbtle/Bluetooth.swift:593-680 | exactly what is delivered for every list of messages that can be split |
| `Fragmentation.RoundTripIff` | krbtle/krbtle/Bluetooth.swift:593-747 | the list of messages is delivered unchanged iff no length is a multiple of mtu - 1 |
| `Fragmentation.ExactFitCorruptsNext` | krbtle/krbtle/Bluetooth.swift:603-615 | a message that fills its blocks is lost and prepended to a following short one |
| `Fragmentation.MaximalRunUnique` | krbtle/krbtle/Bluetooth.swift:655-665 | at most one maximal run ends at any block |
| `Fragmentation.ArbitraryStream` | krbtle/krbtle/Bluetooth.swift:646-680 | for data blocks lost, repeated or reordered at will: deliveries are the maximal countdown runs to 0, and the buffer is the run in progress |
| `Fragmentation.ControlIsInvisible` | krbtle/krbtle/Bluetooth.swift:603-616 | control and empty messages do not disturb reassembly |
| `Fragmentation.Receiver.OnUpdateCharacteristicValue` | krbtle/krbtle/Bluetooth.swift:646-680 | appends to the characteristic's buffer or starts a new one, and delivers at 0, for blocks of any size |
| `Fragmentation.Receiver.DidUpdateValueFor` | krbtle/krbtle/Bluetooth.swift:593-622 | single bytes are control messages, and 0 asks for a refresh; everything else is reassembled |
| `Fragmentation.CharacteristicsAreIndependent` | krbtle/krbtle/Bluetooth.swift:655-670 | every characteristic sees what its own blocks alone would produce |
| `Fragmentation.RefreshesAreAsked` | krbtle/krbtle/Bluetooth.swift:603-615 | over all traffic a refresh is asked for by the single byte 0 and by nothing else |
| `Fragmentation.EveryDeliveryIsAMaximalRun` | krbtle/krbtle/Bluetooth.swift:646-680 | for all traffic on all characteristics: deliveries are maximal runs of one characteristic, and stored numbers are positive |
| `Scanner.BluetoothDelegate.RunScanLogic` | krbtle/krbtle/Bluetooth.swift:280-337 | a call for an old epoch does nothing, any other starts a new one; off, nothing stays paired or scanned for; on, exactly what is unpaired is scanned for and one timer is added, unless there is nothing to scan for; no service changes hands |
| `Scanner.BluetoothDelegate.CentralManagerDidUpdateState` | krbtle/krbtle/Bluetooth.swift:194-231 | power-on forgets the vanished peripherals and unpairs their services and no others; power-off leaves nothing paired or scanned for, and all else; a scan is scheduled while one is needed |
| `Scanner.BluetoothDelegate.AddServiceUUID` | krbtle/krbtle/Bluetooth.swift:339-360 | the service is wanted beside the others, and a scan is queued iff it is new |
| `Scanner.BluetoothDelegate.RunQueuedScan` | krbtle/krbtle/Bluetooth.swift:355-359 | a queued scan runs once, and a scan stays scheduled while one is needed |
| `Scanner.BluetoothDelegate.RemoveServiceUUID` | krbtle/krbtle/Bluetooth.swift:362-389 | afterwards, the scan included, the service is in none of the four collections; every other service is wanted as before, with the same peripheral, and paired as before unless Bluetooth is off |
| `Scanner.BluetoothDelegate.RefreshServiceUUID` | krbtle/krbtle/Bluetooth.swift:391-416 | the wanted services stay the same; a wanted one is unpaired and, while Bluetooth is on, scanned for with a timer pending; every other service is as before, and an unknown one changes nothing |
| `Scanner.BluetoothDelegate.DidDiscoverServices` | krbtle/krbtle/Bluetooth.swift:490-526 | every wanted service among those found ends up with this peripheral, no other service changes hands, and a scan is scheduled while one is needed |
| `Scanner.BluetoothDelegate.DidDisconnectPeripheral` | krbtle/krbtle/Bluetooth.swift:682-698 | the peripheral is forgotten and of the others nothing is; a scan is scheduled while one is needed |
| `Scanner.BluetoothDelegate.DidFailToConnect` | krbtle/krbtle/Bluetooth.swift:477-488 | the peripheral is forgotten and of the others nothing is, and no scan is scheduled for it |
| `Scanner.BluetoothDelegate.RemovePeripheral` | krbtle/krbtle/Bluetooth.swift:700-708 | the loop takes the peripheral from its services and unpairs them, and affects no other service |
| `Scanner.BluetoothDelegate.TimerFires` | krbtle/krbtle/Bluetooth.swift:333-336 | a timer of the current epoch leaves a scan scheduled while one is needed; one of an old epoch only goes away |
| `Scanner.StepKeeps` | krbtle/krbtle/Bluetooth.swift:280-416 | every event keeps the invariants of sets and timers |
| `Scanner.ReachableScans` | krbtle/krbtle/Bluetooth.swift:280-526 | in every reachable state paired ⊆ services with a peripheral ⊆ wanted, scanned ⊆ wanted and disjoint from paired, and at most one pending timer carries the current epoch |
| `Scanner.ScanningNeverStalls` | krbtle/krbtle/Bluetooth.swift:280-337 | in every run without a failed connection to a paired peripheral, a scan is scheduled whenever Bluetooth is on and a wanted service is unpaired |
| `Scanner.FailedConnectionStallsIff` | krbtle/krbtle/Bluetooth.swift:477-488 | a failed connection stalls scanning iff Bluetooth is on, nothing is scheduled and a paired service is lost |
| `Scanner.StalledRun` | krbtle/krbtle/Bluetooth.swift:477-488 | a run that ends so, for every service and peripheral |
| `GitCommit.FieldsOfJoin` | krgpg/krgpg.go:38-44 | splitting into tokens inverts joining them by single spaces |
| `GitCommit.RefusedLines` | krgpg/krgpg.go:33-42 | a line is refused iff it is not terminated or blank |
| `GitCommit.ReadLineTokens` | krgpg/krgpg.go:38-45 | otherwise its tokens are returned, the first apart from the others, and what follows the line remains |
| `GitCommit.ReadPrintedLine` | krgpg/krgpg.go:33-46 | a printed header line reads back as its tag and contents, and the rest is untouched |
| `GitCommit.Reader.ReadLineSplittingFirstToken` | krgpg/krgpg.go:33-46 | advances by one line; unterminated and blank lines are errors |
| `GitCommit.Reader.SignGitCommit` | krgpg/krgpg.go:167-223 | the parent loop and what follows compute the specified commit, or its error |
| `GitCommit.Reader.SignGitTag` | krgpg/krgpg.go:252-283 | the same for tags |
| `GitCommit.Reader.SignGit` | krgpg/krgpg.go:133-151 | dispatch on the first word of the input |
| `GitCommit.ParsedIsPrintable` | krgpg/krgpg.go:167-223 | every accepted commit has normalised fields, and merge parents iff there are two parents or more |
| `GitCommit.AcceptedIff` | krgpg/krgpg.go:140-223 | exactly what is accepted as a given commit: a tree line, one parent line for each parent in order, an author line, one more line, and the message; any other header in front of the author is refused |
| `GitCommit.AcceptedTagIff` | krgpg/krgpg.go:252-283 | exactly what is accepted as a given tag: an object line, three more, and the message |
| `GitCommit.RoundTripIff` | krgpg/notes.md:30-36 | a commit with any number of parents and any message survives printing and parsing iff its fields are tokens joined by single spaces and merge parents follow a first parent |
| `GitCommit.TagRoundTripIff` | krgpg/krgpg.go:252-283 | the same law for tags |
| `SshWire.MarshalInvertsParse` | vendor/golang.org/x/crypto/ssh/messages.go:300-416 | whatever decodes encodes to the same bytes, booleans reduced to 0 or 1 |
| `SshWire.ParseInvertsMarshal` | vendor/golang.org/x/crypto/ssh/messages.go:423-507 | every struct that encodes below 2^32 bytes decodes to itself |
| `SshWire.RequestLayout` | krd/host_validation.go:6-15 | the byte layout of a request: its eight fields in order, strings behind their length (section 7 of RFC 4252) |
| `SshWire.StringLayout` | vendor/golang.org/x/crypto/ssh/messages.go:511-524 | a length has four bytes, the most significant first (section 5 of RFC 4251) |
| `SshWire.StripThenAppendIff` | krd/host_validation.go:27-48 | for every payload that decodes, the stripped payload and the length-prefixed key are the original with the Sign byte reduced, hence the original iff that byte is 0 or 1 |
| `SshWire.EncodedRequest` | krd/host_validation.go:27-60 | every encoded request yields its own session and algorithm, and stripping removes just the key and its length (section 7 of RFC 4252, section 5 of RFC 4251) |
| `SshPacket.PacketFoundIff` | krssh/krssh.go:86-99 | a packet is found iff its lengths make sense as unbounded integers: no uint32 wrap-around is accepted and no index is out of range; and which bytes it is |
| `SshPacket.FrameParsesIff` | krssh/krssh.go:86-99 | framing after section 6 of RFC 4253 is inverted iff the payload has 1 to 2^18 bytes and some byte follows it |
| `SshPacket.RestIsIrrelevant` | krssh/krssh.go:86-99 | the result depends only on header and payload |
| `SshPacket.StartRemoteOutputParsing` | krssh/krssh.go:172-198 | the loop over the reused buffer finds the specified packets and passes on the specified output |
| `SshPacket.OutputIsUnchanged` | krssh/krssh.go:188-192 | everything read is passed on, in order |
| `SshPacket.StaleBytesDoNotMatter` | krssh/krssh.go:178-188 | a packet read in one piece is found whatever earlier reads left in the buffer |
| `SshPacket.PartialReadIsCompleted` | krssh/krssh.go:178-188 | a read that ends inside the payload yields that part followed by stale bytes up to the announced length, and the right payload iff those bytes happen to be right |
| `SshPacket.WholePacketsAreFound` | krssh/krssh.go:172-198 | over a whole connection of reads that begin with a whole packet, all payloads but the first are found |
| `SshPacket.FoundAt` | krssh/krssh.go:182-187 | which payloads these are, position by position |
| `TextReplace.ReplaceAllIsLeftmost` | kr/sshconfig.go:195-195 | replacement cuts at the leftmost non-overlapping occurrences: the pieces glued with the pattern are the text, glued with the replacement the result, and no occurrence could have started earlier |
| `TextReplace.LeftmostCutIsUnique` | kr/sshconfig.go:195-195 | these properties determine the pieces: no other cut has them |
| `TextReplace.ReplaceAcross` | kr/sshconfig.go:227-227 | two sides of a border that no occurrence crosses are replaced independently |
| `SshConfig.EditIsIdempotent` | kr/sshconfig.go:97-128 | editing twice is editing once, and no edit does anything once the block is in |
| `SshConfig.EditInstalls` | kr/sshconfig.go:97-128 | a confirmed edit of a config without Krypton lines, or a forced one, holds the block and begins with the old config, and every confirmed edit leaves a krssh line; an unconfirmed edit, and an unforced one of a config with such a line, changes nothing |
| `SshConfig.BlockNamesKeySource` | kr/sshconfig.go:18-39 | the block names the identity agent where ssh supports it and the PKCS11 provider otherwise |
| `SshConfig.CleanUndoesEdit` | kr/sshconfig.go:205-233 | cleaning an edited config that held no block gives the original, plus two newlines if it was edited, for every prefix without `#` and both blocks |
| `SshConfig.CleanRemovesAll` | kr/sshconfig.go:227-227 | cleaning takes out every leftmost non-overlapping occurrence of the block and nothing else |
| `SshConfig.MigrateReplacesAll` | kr/sshconfig.go:189-195 | migrating replaces every leftmost non-overlapping provider line and nothing else |
| `SshConfig.MigrateConvertsBlock` | kr/sshconfig.go:168-203 | migration turns an old block into the new one in place, and the text around it on its own |
| `SshConfig.MigratedNeedsNoEdit` | kr/sshconfig.go:168-203 | every config that holds the old block holds the new one after migration, so that editing is a no-op, for every prefix without white space |

## Left out

- AWS SQS and SNS, HTTP, sockets, notify files, analytics, logging and version checks: a transport is a success or a failure, and inbound traffic a list of byte strings.
- NaCl box, blake2b, SHA-256, JSON and base64: the box is a parameter, codecs are lossless.
- Failing saves and failing random sources: saves succeed; a failing key generation is modelled, a failing nonce is not.
- Which medium a message is handed to (krd/enclave_client.go:643-660, 678-704): the Bluetooth write and the choice between alert and plain message do not affect the state modelled.
- The unpair message that krd sends on its own (krd/enclave_client.go:169-184): it is a `Send` that may not be queued, at any later time.
- EnclaveQueue.LateKeyMirrorsIff: assumes that two pairings have different workstation public keys, because they are generated at random.
- EnclaveQueue.StepMirrorsIff: assumes the same of all pairings, for the same reason.
- Encoding errors of a request, and the wait of a second after a failed read (krd/enclave_client.go:519-523, 574-577): a round of the poll loop may take any time.
- Deadline.RequestInTime: assumes bounds on how long a poll round lasts (for the first: that it is over, registering and sending included, by that long after the extended deadline) and how late the select loop takes what is ready, because the transport and the scheduler are not modelled; both appear in its bound.
- Host authentication waiters in krd/ssh_agent.go: delivery there asserts another type than the one stored.
- The network header inside a reassembled Bluetooth message, the refresh timers that follow writes and control messages, and the characteristics and peripheral identifiers cached by the delegate (krbtle/krbtle/Bluetooth.swift:232-278): a refresh is an event that may happen at any time.
- Scan start times, full scans and the 64-bit bound of the scan epoch: they decide what the radio does, not the bookkeeping.
- An mtu of 0, which traps in the source.
- Read and write errors on the tapped ssh connection (krssh/krssh.go:178-192), which end the loop: a connection is the list of its reads.
- Bytes that are not valid UTF-8 in commit headers: text is a sequence of characters.
- Struct fields that are longer than 2^32 bytes in `SshWire.ParseInvertsMarshal`: lengths are 32 bits wide.
- Reading, writing and backing up the config file, prompts, and the detection of the local ssh version (kr/sshconfig.go:140-166): only the text is modelled.
- The kr command line, QR codes, PGP onboarding, pkcs11shim and sigchaingobridge: user interface, stubs and generated bindings.
