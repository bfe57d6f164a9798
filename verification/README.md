# DataStorm and Slice: a verified model

This project models the parts of ZeroC Ice that carry the most state and the most cases, and proves what they promise.

- **The pub/sub data plane of DataStorm.** A writer keeps a bounded history and the current value of every key, and
  resolves partial updates. A reader that attaches late gets a compressed initialization batch, then live samples. The
  main results say that the reader's values agree with the writer's, for every publish log, every configuration and
  every continuation.
- **Subscriber bookkeeping.** Listeners, connected-key lists, key ids and the listener count are four views of one set of
  subscriptions.
- **The interning factory.** Keys, tags and filters are interned through weak pointers, with deleters that may run late.
- **The announcement relay.** Topic announcements are recorded, forwarded, replayed and dropped as connections come and go.
- **The session handshake.** createSession, confirmCreateSession and its response, with any number of attempts in flight.
- **The Slice encoding.** Nested values are written and read back; optionals carry exact sizes and can be skipped.

## Files

| file | content |
|---|---|
| Samples, History, PublishLog | samples and configurations, the bounded history, the publish log and the writer state as a function of it |
| KeyOrder | what reaping leaves of one key, by the order of its publish times |
| InitBatch, Reader, Agreement | the initialization batch, the reader, and the agreement theorems |
| Shapes, ExactAgreement, SteppedClock | exactly when late joiners agree under a clock that steps back, and two runs after which they do not |
| ReaderSteps | what the reader's operations do, said from the samples and the configuration |
| Divergence, SendTimeOrder | where agreement fails for other reasons, and the exact conditions under which it holds |
| DataWriter, BatchBuilding, DataReader | the writer and reader as classes and loops, proved against the functions above |
| Subscriptions, DataElement | the subscription views, and the element class that updates them |
| PriorityDelivery | the Priority policy of the reader over the subscription views |
| Interning, InterningSteps | the factory as a state machine and as a class, and what each step does in every reachable state |
| Relay, RelayRuns, NodeSessionManager | the relay as a state machine, what it holds and has sent as a function of its run, and the relay as a class |
| Handshake, SendBarrier, HandshakeSteps, NodeSessions | the handshake between two nodes, what holds over its runs, what each step does, and a node's session tables as a class |
| Slice, SliceReading, SliceOptional, SliceFormat, SliceStreams | the encoding, reading back, optionals and tagged members, the bytes of the encoding and what readers refuse, the two stream classes |

`dafny verify dfyconfig.toml` verifies everything.

## Results that differ from what one would expect

- **Empty update encodings.** `SampleT::encode` takes an empty buffer for "not encoded yet". A partial update that encodes
  to nothing is sent as the full value, and the reader applies it as an update. The reader computes the writer's value for
  every codec and value exactly when the encoding is not empty (`Divergence.UpdateReadsBackIffEncoded`).
- **Clocks that step back.** `cleanOldSamples` drops a prefix of the history exactly when the timestamps never decrease
  (`History.ReapsPrefixIffMonotone`). Otherwise it can take a partial update from the middle of a key's history, so that a
  late joiner applies the next one to the wrong value (`SteppedClock.SteppedBackClockDiverges`). Full values alone can
  diverge too: when the later value is stale and the earlier one is not, the earlier one covers the key, the base is not
  collected, and the joiner is left with the earlier value (`SteppedClock.OvertakenValueDiverges`). After any run, late
  joiners agree on a key for all codecs, values, configurations and join times exactly when the key is steady
  (`ExactAgreement.JoinersAgreeIffSteady`). A live key is steady when the history holds, with any sample of it, all its
  later ones from its last full value on, and none of these is older. A removed key is steady when every other sample of
  it in the history is followed there by a remove that is not older. A key is steady in particular when its own samples
  from its last full value or remove on are in order; the times of other keys do not matter (`KeyOrder.RunIsSteady`).
- **Removed keys on resume.** A reader that reconnects after a key was removed forgets the key exactly when it had no
  value for it or the history still has a sample of it in reach of the scan (`Agreement.ResumedReaderAgrees`,
  `InitBatch.ScannedIffInReach`, `Divergence.TrimmedRemoveLeavesStaleBase`).
- **SendTime convergence.** The documentation of the SendTime policy (cpp/include/DataStorm/Types.h:25-28) promises that
  readers end with the same view. The code keeps one send time for the whole reader, not one per key. Every arrival order
  gives the same view exactly when every key but the one of the latest sample has a single sample
  (`SendTimeOrder.ConvergesIffOthersPublishOnce`). With one key it always does.
- **Relay replay.** The replay skips a whole record when it was last updated from the peer's own connection. A topic that
  came from elsewhere is then never sent to the peer (`Relay.ReplaySkipsForeignTopic`). The replay is complete topic by
  topic exactly when no record last updated from that connection holds a foreign topic: the replay to a peer
  (`Relay.ReplayTellsEveryTopicIff`) and the one made on connecting (`Relay.ConnectingTellsEveryTopicIff`).
- **First key id.** The factory's counter starts at 1 and is incremented before use, so the first id is 2. A comment in
  cpp/src/DataStorm/DataElementI.cpp says ids start at 1; nothing depends on it.

## Assumptions

- Encoders, decoders, updaters and filters are total and deterministic, and decoding inverts encoding (`Codec.Lawful`). A
  filter that throws counts as false. They are parameters.
- Keys and tags are identities, as the interning factory provides them. Values are only compared.
- Times are integers in microseconds and are parameters. Nothing is assumed about their order; results that need one say
  so.
- A session delivers samples in the order in which they were sent (cpp/include/DataStorm/Node.h:30-34). There is one
  writer per key wherever agreement is claimed.
- Operations that run under one mutex are one step. Calls on sessions, lookups and connections are recorded in ledgers.
- The connection of the relay's outgoing link is fixed from its connection to its disconnection.
- In the handshake a confirmation arrives over any connection: the one it was sent on, or that of a relay. Messages are
  delivered at most once and can be lost.
- Sizes in the Slice encoding fit in an int32. Numbers are signed integers of a given width, little-endian; floats stand
  for their bit patterns.

## Model

| member | source | states |
|---|---|---|
| History.ReapsPrefixIffMonotone | cpp/src/DataStorm/DataElementI.cpp:34-48 | reaping drops a prefix of the history, at whatever time it runs, if and only if no sample is older than one published before it |
| History.AppendMeans | cpp/src/DataStorm/DataElementI.cpp:1378-1409 | from the configuration alone: the history after adding a sample is the samples not older than a positive lifetime, the newest a positive count leaves room for, or none if the policy names the sample's event, and then the sample; with a count of zero nothing is added |
| PublishLog.CurrentIsNewest | cpp/src/DataStorm/DataElementI.cpp:1366-1376 | the per-key map holds a key exactly when the key's newest published sample is not a remove, and then holds that sample |
| PublishLog.RunKeepsInv | cpp/src/DataStorm/DataElementI.cpp:1334-1409 | after any run of publishes and reaps, whatever the clock did, the history holds published samples in the order of the log, within the count, none but its oldest a clearing one; ids increase; every key's samples form a resolved chain |
| PublishLog.EveryPublishIsResolved | cpp/src/DataStorm/DataElementI.cpp:1341-1376 | after any run a publish is refused if and only if it is a partial update of a key whose newest sample is absent or a remove; otherwise the log grows by one sample with the draft's event, key, tag and bytes, and its own value or the update applied to the value of the key's newest sample |
| PublishLog.HistoryIsSuffix | cpp/src/DataStorm/DataElementI.cpp:1378-1409 | without a lifetime, or with publish times that never decrease, the history is a suffix of the log |
| PublishLog.HistoryIsExact | cpp/src/DataStorm/DataElementI.cpp:1378-1409 | with a clock that does not step back the history is exactly the log from the last clearing sample on, cut to the count and to the samples not stale at the last action |
| KeyOrder.RunIsSteady | cpp/src/DataStorm/DataElementI.cpp:1334-1409 | over any run, whatever happened to other keys, a key is steady when none of its samples from its last full value or remove on has an earlier time than one of its samples before; without a lifetime every key is |
| KeyOrder.KeyHistoryIsSuffix | cpp/src/DataStorm/DataElementI.cpp:34-48 | what the history holds of a key whose own publish times never decrease is a suffix of what was published of it, whatever the times of other keys |
| InitBatch.ScanSpec | cpp/src/DataStorm/DataElementI.cpp:1730-1764 | the scan selects the matching samples of a suffix of the history that holds nothing stale or received, at most the count, no clearing match but its oldest, and cannot be extended |
| InitBatch.ScannedIffInReach | cpp/src/DataStorm/DataElementI.cpp:1730-1764 | the scan covers a key if and only if the reader keeps history and the history has a matching sample of the key from which on nothing is stale or received, no later match clears, and the matches do not exceed the count |
| InitBatch.CapSize | cpp/src/DataStorm/DataElementI.cpp:1631-1666 | a batch within the count is left alone; a larger one shrinks to the greater of the count and the number of distinct keys |
| InitBatch.CapFromPrefersNewer | cpp/src/DataStorm/DataElementI.cpp:1638-1655 | a kept sample that is not its key's newest has every newer sample kept too |
| InitBatch.FilteredOfKey | cpp/src/DataStorm/DataElementI.cpp:1618-1764 | whatever the sample filter: of a scanned key the batch holds a non-empty suffix of its samples in the history that pass; of any other key its current sample if the reader asked for it, accepts it and has not received it, else nothing |
| InitBatch.DeliveredForm | cpp/src/DataStorm/DataElementI.cpp:1668-1681 | every sample is sent with its id, key, time, event, tag and bytes; a partial update that is the first of its key as an update without a tag and with the encoded full value |
| InitBatch.ChosenOfKey | cpp/src/DataStorm/DataElementI.cpp:1618-1764 | of a scanned key the batch holds a non-empty suffix of what the history holds of it; of any other key its current sample if the reader needs it, else nothing |
| InitBatch.ChosenIsTail | cpp/src/DataStorm/DataElementI.cpp:1618-1764 | where the history holds a suffix of what was published of a key, so does the batch; every key the reader still needs is represented; no key it did not ask for is |
| InitBatch.ChosenIsCapped | cpp/src/DataStorm/DataElementI.cpp:1620-1666 | the batch has increasing ids, comes from the selected samples, keeps the newest selected sample of every key, and has the promised size |
| Reader.RunOpsKeepsInv | cpp/src/DataStorm/DataElementI.cpp:818-1269 | over any run of queue, initSamples, getAllUnread and getNextUnread the history stays within a positive count and every base has a value and is not a remove |
| ReaderSteps.EveryQueueMeans | cpp/src/DataStorm/DataElementI.cpp:1083-1269 | in every reachable state: a sample of a key that does not match changes nothing; one that loses to the policy only seeds a key without a base, if it is a full value; a partial update without a base changes nothing; any other is called back once with its value, becomes or clears the base, sets the send time and is added to the history |
| ReaderSteps.InitMeans | cpp/src/DataStorm/DataElementI.cpp:863-1081 | the same for a batch, with the send time from before it throughout; the history then holds the fresh samples and the batch from its last clearing sample on, cut to the count |
| ReaderSteps.TakeMeans | cpp/src/DataStorm/DataElementI.cpp:818-861 | taking what is unread gives all of it, or the oldest sample, and changes nothing else |
| Reader.InitRefinesQueue | cpp/src/DataStorm/DataElementI.cpp:863-1081 | loading a batch leaves the same bases, history, send time and callbacks as queueing each sample, for every count and clear policy, when the policy is not SendTime and no sample is stale on arrival |
| Agreement.BatchPreservesMeaning | cpp/src/DataStorm/DataElementI.cpp:1618-1682 | after any run in which no key's own publish times decrease, or any run without a lifetime, each key's delivered samples are its newest published ones without a gap, and the reader gives every delivered sample the value the writer resolved, the first per key travelling as a full value |
| Agreement.BatchPasses | cpp/src/DataStorm/DataElementI.cpp:1693-1743 | for every query every sample of the batch is of a key asked for and passes the filter, and every key whose current sample is asked for, passes and was not received is represented |
| Agreement.SteadyJoinerAgrees | cpp/src/DataStorm/DataElementI.cpp:1572-1772 | in any writer state a reader that loads the batch agrees with the writer on every key that is steady there |
| Agreement.LateJoinerAgrees | cpp/src/DataStorm/DataElementI.cpp:1572-1772 | after any writer run and for any two configurations a reader without bases that loads the batch holds the writer's current value of every key it asked for, no base for a removed key and none for any other key; with a lifetime, for each key in order from its last full value on |
| Agreement.ResumedReaderAgrees | cpp/src/DataStorm/DataElementI.cpp:1687-1770 | a reader that agreed up to lastId and attaches again agrees on every live key that is steady in what the history holds since lastId; on a removed one if and only if it had no value or the history, once reaped, still has a sample of the key in reach of the scan |
| Agreement.RunLongAgreement | cpp/src/DataStorm/DataElementI.cpp:1083-1225 | whatever the writer does next, a reader that queues every sample in order keeps agreeing, on all subscribed keys if it did, else on the live ones |
| Agreement.NothingDropped | cpp/src/DataStorm/DataElementI.cpp:1166-1212 | the callbacks after attaching are exactly the published samples of subscribed keys, in order, each with the writer's value: no partial update is dropped for lack of a base |
| Agreement.JoinThenFollow | cpp/src/DataStorm/DataElementI.cpp:863-1269 | end to end: any history that left the subscribed keys steady, a late join, any continuation, and the reader agrees with the writer on every subscribed key |
| Divergence.UpdateReadsBackIffEncoded | cpp/include/DataStorm/InternalT.h:379-398 | a reader computes the writer's value from a partial update, for every lawful codec and value, if and only if the update encoding is not empty |
| Shapes.RunsAlike | cpp/src/DataStorm/DataElementI.cpp:1334-1409 | which samples a run publishes, keeps and reaps depends neither on the codec nor on the full values published |
| ExactAgreement.JoinersAgreeIffSteady | cpp/src/DataStorm/DataElementI.cpp:34-48 | after any run, whatever the clock did, every late joiner that asks with its own configuration agrees on a key, for all codecs, all full values, all configurations and all join times, if and only if the key is steady |
| ExactAgreement.BatchesAreTailsIffGapless | cpp/src/DataStorm/DataElementI.cpp:1618-1764 | in any writer state every batch holds a key's newest published samples without a gap if and only if the history does and, with a lifetime, holds them in the order of their times |
| SteppedClock.SteppedBackClockDiverges | cpp/src/DataStorm/DataElementI.cpp:34-48 | a concrete run in which a reap takes a partial update from the middle of the history: a reader without limits that joins at the last publish ends with 11, the writer holds 12 |
| SteppedClock.OvertakenValueDiverges | cpp/src/DataStorm/DataElementI.cpp:34-48 | a concrete run with full values alone in which the earlier value outlives the later one: a reader without limits that joins then ends with the earlier 10, the writer holds 20 |
| Divergence.TrimmedRemoveLeavesStaleBase | cpp/src/DataStorm/DataElementI.cpp:1687-1700 | a concrete resume after which the reader still holds a removed key |
| SendTimeOrder.ConvergesIffOthersPublishOnce | cpp/src/DataStorm/DataElementI.cpp:1126-1164 | every arrival order leaves the same view if and only if every key but the latest sample's has one sample |
| SendTimeOrder.SingleKeyConverges | cpp/src/DataStorm/DataElementI.cpp:1126-1225 | on one key any two arrival orders leave the same base and the same last delivered sample, the one with the greatest timestamp |
| DataReader.DataReader.constructor | cpp/src/DataStorm/DataElementI.cpp:784-809 | a new reader is empty |
| DataReader.DataReader.GetAllUnread | cpp/src/DataStorm/DataElementI.cpp:818-825 | returns the whole history and empties it |
| DataReader.DataReader.GetNextUnread | cpp/src/DataStorm/DataElementI.cpp:847-861 | removes and returns the oldest unread sample |
| DataReader.DataReader.Queue | cpp/src/DataStorm/DataElementI.cpp:1083-1269 | the fields change as the reader function and its meaning say; the assertion that a bounded history is not empty when trimmed holds |
| DataReader.DataReader.AppendSample | cpp/src/DataStorm/DataElementI.cpp:1232-1267 | the history after reaping, trimming, clearing and appending |
| DataReader.DataReader.InitSamples | cpp/src/DataStorm/DataElementI.cpp:863-1081 | the fields change as the batch function and its meaning say; the final assertion on the history holds |
| DataReader.DataReader.ResolveBatch | cpp/src/DataStorm/DataElementI.cpp:881-1005 | the loop leaves the bases and valid samples of the fold over the batch |
| DataReader.DataReader.LoadHistory | cpp/src/DataStorm/DataElementI.cpp:1036-1077 | the history after reaping, clearing and trimming to the count |
| BatchBuilding.SortRestoresLogOrder | cpp/src/DataStorm/DataElementI.cpp:1620-1623 | sorting the collected samples by id gives the log's own order |
| BatchBuilding.MarksSelectCap | cpp/src/DataStorm/DataElementI.cpp:1638-1664 | the marks of the two passes select exactly the capped batch |
| BatchBuilding.ReserveNewest | cpp/src/DataStorm/DataElementI.cpp:1638-1646 | the first pass marks the newest sample of each key and counts the keys |
| BatchBuilding.FillBudget | cpp/src/DataStorm/DataElementI.cpp:1647-1655 | the second pass spends what is left on the newest of the others |
| BatchBuilding.CapBatch | cpp/src/DataStorm/DataElementI.cpp:1631-1666 | the two passes compute the cap |
| BatchBuilding.DeliverBatch | cpp/src/DataStorm/DataElementI.cpp:1668-1681 | the first partial update of a key is sent as a full value, everything else as published |
| BatchBuilding.ScanHistory | cpp/src/DataStorm/DataElementI.cpp:1730-1764 | the backward loop computes the scan, and the set of keys it covers |
| DataWriter.KeyDataWriter.Publish | cpp/src/DataStorm/DataElementI.cpp:1334-1409 | fails, with nothing changed, if and only if the sample is a partial update of a key whose newest sample is absent or a remove; otherwise the log grows by the sample with its value, number and time, and the history is the one its configuration asks for |
| DataWriter.KeyDataWriter.GetSamples | cpp/src/DataStorm/DataElementI.cpp:1572-1772 | the batch is the one the log and history determine: every sample is asked for and passes the filter, no key that needs one is missing, and each is sent in its form; the history is reaped unless the reader keeps none |
| DataWriter.KeyDataWriter.CollectBases | cpp/src/DataStorm/DataElementI.cpp:1687-1700 | collects exactly the current samples the reader has not received, of matching keys the scan did not cover |
| DataWriter.KeyDataWriter.CollectSources | cpp/src/DataStorm/DataElementI.cpp:1702-1771 | scan and bases together, sorted, are the selected samples |
| Subscriptions.ConnectedIffSubscribed | cpp/src/DataStorm/DataElementI.cpp:648-691 | a peer is found connected under a key if and only if it is subscribed with that key |
| Subscriptions.AttachKeepsConsistent | cpp/src/DataStorm/DataElementI.cpp:244-301 | attaching adds the subscription to all views, or changes nothing and returns false when it is there |
| Subscriptions.DetachKeepsConsistent | cpp/src/DataStorm/DataElementI.cpp:303-379 | detaching removes it from all views; detaching again is a no-op |
| Subscriptions.RunIsConsistent | cpp/src/DataStorm/DataElementI.cpp:244-505 | over any attach/detach run all views describe one map of subscriptions and one of priorities: count, keys, ids and priority per subscriber, one subscriber per peer, non-empty and sorted lists |
| Subscriptions.LowerPriorityIffOutranked | cpp/src/DataStorm/DataElementI.cpp:1307-1324 | after any attach/detach run the priority test is true if and only if some publisher subscribed under the key or the null key came with a strictly higher priority when it first subscribed |
| PriorityDelivery.DeliveredIffNotOutranked | cpp/src/DataStorm/DataElementI.cpp:1126-1164 | with the Priority policy, after any attach/detach run, a full value or remove is delivered if and only if no publisher subscribed under its key or the null key came with a strictly higher priority; a discarded one changes nothing but a missing base |
| DataElement.DetachUsesAttachedId | cpp/src/DataStorm/DataElementI.cpp:329-349 | a connected key has an id on record, and it is the one it was attached with |
| DataElement.KeyReleasesAreSubscriptions | cpp/src/DataStorm/DataElementI.cpp:710-729 | disconnect releases a key with an id if and only if that key subscription is outstanding with that id |
| DataElement.FilterReleasesAreSubscriptions | cpp/src/DataStorm/DataElementI.cpp:715-718 | disconnect releases a filter peer if and only if it has an outstanding subscription |
| DataElement.DataElement.AddConnectedKey | cpp/src/DataStorm/DataElementI.cpp:648-662 | lists the subscriber under the key, sorted by priority for a Priority reader, or returns false |
| DataElement.DataElement.RemoveConnectedKey | cpp/src/DataStorm/DataElementI.cpp:664-691 | removes the subscriber, and the list when it becomes empty, or returns false |
| DataElement.DataElement.AddOrGet | cpp/src/DataStorm/DataElementI.h:85-103 | finds the peer's subscriber or creates it |
| DataElement.DataElement.AttachKey | cpp/src/DataStorm/DataElementI.cpp:244-301 | the fields hold the views after the attachment; subscribeToKey is called exactly when it succeeds |
| DataElement.DataElement.DetachKey | cpp/src/DataStorm/DataElementI.cpp:303-379 | the fields hold the views after the detachment; the session is unsubscribed with the detached key's own id |
| DataElement.DataElement.AttachFilter | cpp/src/DataStorm/DataElementI.cpp:381-440 | the same for a filter, stored under the negated element id |
| DataElement.DataElement.DetachFilter | cpp/src/DataStorm/DataElementI.cpp:442-505 | the same for a filter |
| DataElement.DataElement.HasLowerPriorityThanConnected | cpp/src/DataStorm/DataElementI.cpp:1307-1324 | the loop computes the priority test |
| DataElement.DataElement.Disconnect | cpp/src/DataStorm/DataElementI.cpp:699-730 | forgets all listeners and makes exactly one release call per recorded key id and per filter subscriber, no call twice |
| Interning.EveryRunKeepsInv | cpp/include/DataStorm/InternalT.h:134-241 | in every interleaving both maps point at every live element and at nothing but live and dying ones |
| Interning.OneLiveElementPerValue | cpp/include/DataStorm/InternalT.h:192-215 | at most one live element per value, and both lookups return it |
| Interning.LateDeleterIsHarmless | cpp/include/DataStorm/InternalT.h:217-235 | a deleter, however late, leaves every live element registered and takes its own element out of both maps |
| Interning.NothingLeaks | cpp/include/DataStorm/InternalT.h:217-235 | when nothing is alive or dying both maps are empty |
| Interning.IdsAreNeverReused | cpp/include/DataStorm/InternalT.h:209-213 | elements keep id and value for ever, and whatever is created later gets a greater id |
| InterningSteps.IdsAreConsecutive | cpp/include/DataStorm/InternalT.h:209-213 | in every reachable state the ids handed out are consecutive, from 2 on |
| InterningSteps.EveryCreateMeans | cpp/include/DataStorm/InternalT.h:192-215 | in every reachable state creating a value returns the live element that holds it, with one reference more, or a new element with one reference under the next id |
| InterningSteps.CreateAllMeans | cpp/include/DataStorm/InternalT.h:166-176 | creating several values under one lock is creating them one after the other |
| InterningSteps.LookupMeans | cpp/include/DataStorm/InternalT.h:181-190 | a lookup by id gives a live element one reference more, and does nothing otherwise |
| InterningSteps.ReleaseMeans | cpp/include/DataStorm/InternalT.h:192-235 | a release takes one reference, and leaves the element to its deleter with the last one |
| InterningSteps.DeleterMeans | cpp/include/DataStorm/InternalT.h:217-235 | a deleter is done with its element, and holds one reference to the live element of the same value if there is one |
| Interning.AbstractFactory.CreateImpl | cpp/include/DataStorm/InternalT.h:192-215 | returns the live element of the value, or registers a new one |
| Interning.AbstractFactory.CreateMany | cpp/include/DataStorm/InternalT.h:166-176 | every result is alive and holds its value; equal values get the same element |
| Interning.AbstractFactory.GetImpl | cpp/include/DataStorm/InternalT.h:181-190 | finds an id exactly when its element is alive |
| Interning.AbstractFactory.Remove | cpp/include/DataStorm/InternalT.h:217-235 | unregisters a dying element; a live replacement is locked and stays registered |
| Relay.AnnounceKeepsComplete | cpp/src/DataStorm/NodeSessionManager.cpp:148-323 | an announcement reaches every forwarding link but those of its own connection, which then is a source of the record |
| Relay.EveryPeerIsToldEverything | cpp/src/DataStorm/NodeSessionManager.cpp:89-146 | in every reachable state each forwarding link was sent every recorded announcement unless the node's record was at some point sourced from the link's connection |
| Relay.ForwardedButNotEchoed | cpp/src/DataStorm/NodeSessionManager.cpp:333-363 | a forwarding link is sent an announcement unless it came over the link's own connection; local announcements go to every link |
| Relay.NeverRecordsItself | cpp/src/DataStorm/NodeSessionManager.cpp:261-264 | in no reachable state is there a record of the node itself |
| Relay.NothingOutlivesItsConnection | cpp/src/DataStorm/NodeSessionManager.cpp:499-575 | every retained announcement comes from a tracked connection; when a connection's callbacks have run no session and no announcement of it is left |
| Relay.OnlyItsOwnCloseEndsASession | cpp/src/DataStorm/NodeSessionManager.cpp:559-575 | over any run a session made on a connection lasts if and only if that connection is not closed and the node does not come back over another one |
| Relay.LastingSessionKeepsItsLink | cpp/src/DataStorm/NodeSessionManager.cpp:89-146 | a session that lasts goes on forwarding, and what its peer was sent is kept |
| Relay.ReplayTellsEveryTopicIff | cpp/src/DataStorm/NodeSessionManager.cpp:474-497 | the replay to a peer is complete topic by topic if and only if no record last updated from its connection holds a topic received elsewhere |
| Relay.ConnectTellsEveryTopicIff | cpp/src/DataStorm/NodeSessionManager.cpp:397-443 | the same for the replay to the node this one connects to |
| Relay.ConnectingTellsEveryTopicIff | cpp/src/DataStorm/NodeSessionManager.cpp:397-443 | in every reachable state, the replay made on connecting is complete topic by topic if and only if no record last updated from the link's connection holds a topic received elsewhere |
| Relay.ToldEveryTopicLasts | cpp/src/DataStorm/NodeSessionManager.cpp:333-363 | a link that was told every topic stays so over every run in which it stays up on its connection |
| Relay.ReplaySkipsForeignTopic | cpp/src/DataStorm/NodeSessionManager.cpp:480-484 | a concrete run after which a forwarding peer was never sent a topic it did not announce |
| RelayRuns.SessionIffMade | cpp/src/DataStorm/NodeSessionManager.cpp:89-146 | over any run a node has a session on a connection, and a forwarding one, if and only if it was made, or asked to forward, and not ended since |
| RelayRuns.OneCallbackPerSession | cpp/src/DataStorm/NodeSessionManager.cpp:127-134 | over any run each session that was made has one close callback, which has run or is registered |
| RelayRuns.RecordedIffAnnounced | cpp/src/DataStorm/NodeSessionManager.cpp:445-507 | over any run a topic is on record for a node if and only if it was announced over a tracked connection and since then no connection was dropped over which the node had been announced last |
| RelayRuns.LinkedIffConnected | cpp/src/DataStorm/NodeSessionManager.cpp:397-443 | the outgoing link is up from connecting to disconnecting, on the connection of the node's session if it has one |
| RelayRuns.SentIffAnnounced | cpp/src/DataStorm/NodeSessionManager.cpp:333-363 | while a link stays up it is sent every announcement but those that come over its own connection, this node's own ones among them, and nothing else |
| RelayRuns.ConnectSends | cpp/src/DataStorm/NodeSessionManager.cpp:425-442 | connecting sends exactly this node's own topics and the recorded ones not last updated from the link's connection |
| RelayRuns.SessionSends | cpp/src/DataStorm/NodeSessionManager.cpp:107-146 | a session that starts to forward is sent exactly the recorded announcements not last updated from its connection |
| RelayRuns.UpstreamIsTold | cpp/src/DataStorm/NodeSessionManager.cpp:397-443 | over any run in which the outgoing link stays up it has been sent exactly this node's topics from connecting, the ones recorded elsewhere then, and every announcement since but those of its own connection |
| NodeSessionManager.NodeSessionManager.HasConnection | cpp/src/DataStorm/NodeSessionManager.cpp:509-521 | the loop finds exactly the tracked connections |
| NodeSessionManager.NodeSessionManager.ForwardAll | cpp/src/DataStorm/NodeSessionManager.cpp:333-363 | every forwarding link off the excluded connection is sent the announcement, no other |
| NodeSessionManager.NodeSessionManager.RecordAnnouncement | cpp/src/DataStorm/NodeSessionManager.cpp:445-472 | topics accumulate and the source is replaced, for tracked connections only |
| NodeSessionManager.NodeSessionManager.AnnounceTopics | cpp/src/DataStorm/NodeSessionManager.cpp:254-323 | records and forwards; requests naming this node are ignored |
| NodeSessionManager.NodeSessionManager.AnnounceTopicReader | cpp/src/DataStorm/NodeSessionManager.cpp:148-199 | the same for one topic reader |
| NodeSessionManager.NodeSessionManager.AnnounceTopicWriter | cpp/src/DataStorm/NodeSessionManager.cpp:201-252 | the same for one topic writer |
| NodeSessionManager.NodeSessionManager.AnnounceKnownTopics | cpp/src/DataStorm/NodeSessionManager.cpp:474-497 | the loop sends exactly the records not last updated from the link's connection |
| NodeSessionManager.NodeSessionManager.RemoveAnnouncements | cpp/src/DataStorm/NodeSessionManager.cpp:499-507 | the erasing loop removes exactly the records of the connection |
| NodeSessionManager.NodeSessionManager.CreateSession | cpp/src/DataStorm/NodeSessionManager.cpp:89-146 | returns a session on the given connection, replacing one on another connection and upgrading one that does not forward |
| NodeSessionManager.NodeSessionManager.Connected | cpp/src/DataStorm/NodeSessionManager.cpp:397-443 | the outgoing link comes up on the connection of the node's session if there is one, and is sent exactly this node's topics and the recorded ones not last updated from it |
| NodeSessionManager.NodeSessionManager.Disconnected | cpp/src/DataStorm/NodeSessionManager.cpp:523-544 | the link goes down and its connection's records are dropped |
| NodeSessionManager.NodeSessionManager.CloseSession | cpp/src/DataStorm/NodeSessionManager.cpp:559-575 | drops the connection's records, and the session if it still uses the connection |
| NodeSessionManager.NodeSessionManager.Perform | cpp/src/DataStorm/NodeSessionManager.cpp:89-575 | any step keeps completeness and hygiene |
| SendBarrier.EveryRunKeepsInv | cpp/src/DataStorm/NodeI.cpp:180-383 | over every interleaving, with lost messages, closed connections and removed sessions, the two nodes' sessions are what the log of connects and disconnects says, and the log is orderly |
| SendBarrier.ConnectedByOneAccept | cpp/src/DataStorm/NodeI.cpp:252-286 | each publisher-side connected step has one earlier subscriber-side accept of the same attempt, sent over the publisher's connection, directly or through a relay; neither the accept nor the attempt serves another |
| SendBarrier.OneAcceptBetweenDisconnects | cpp/src/DataStorm/NodeI.cpp:349-382 | between two accepts of the subscriber there is a disconnect |
| SendBarrier.SendBarrier | cpp/src/DataStorm/NodeI.cpp:256-275 | when the publisher becomes connected the subscriber is connected by the same attempt, over the connection the confirmation arrived on, unless it was disconnected since |
| SendBarrier.SameConnectionAtBothEnds | cpp/src/DataStorm/NodeI.cpp:366-378 | between nodes that talk directly both ends are connected over the same connection |
| HandshakeSteps.SubscriberAsks | cpp/src/DataStorm/NodeI.cpp:436-508 | over every run: a subscriber registers a session and asks for a publisher session if and only if it has none that is connected |
| HandshakeSteps.RequestArrives | cpp/src/DataStorm/NodeI.cpp:180-227 | over every run: a request gets the registered publisher session, or a new idle one, and waits for a connection |
| HandshakeSteps.ConnectionIsReady | cpp/src/DataStorm/NodeI.cpp:228-256 | over every run: a confirmation is sent over the connection if and only if the publisher session is not connected by then |
| HandshakeSteps.ConfirmationArrives | cpp/src/DataStorm/NodeI.cpp:319-383 | over every run: the subscriber accepts if and only if it has a registered session that is not connected; the session is connected over the connection of arrival and the response is sent |
| HandshakeSteps.ResponseArrives | cpp/src/DataStorm/NodeI.cpp:256-286 | over every run: the publisher session a confirmation was sent for is connected by its response, over the connection it was sent over, if and only if it was idle |
| HandshakeSteps.SubscriberCloses | cpp/src/DataStorm/SessionI.cpp:739-812 | over every run: a close disconnects the subscriber session if and only if it is connected over that connection, or none is named |
| HandshakeSteps.PublisherCloses | cpp/src/DataStorm/SessionI.cpp:739-812 | the same for a publisher session |
| HandshakeSteps.SubscriberIsRemoved | cpp/src/DataStorm/NodeI.cpp:511-526 | a subscriber session is unregistered and destroyed if it is the registered one, never while it is connected |
| HandshakeSteps.PublisherIsRemoved | cpp/src/DataStorm/NodeI.cpp:541-556 | a publisher session is unregistered, destroyed and so disconnected if it is the registered one |
| HandshakeSteps.NothingComesOfIt | cpp/src/DataStorm/NodeI.cpp:283-317 | a failed connection or a lost message changes nothing but itself |
| HandshakeSteps.HandshakeConnects | cpp/src/DataStorm/NodeI.cpp:180-383 | after any run that leaves both ends unconnected a request, its confirmation and the response connect both ends by the same attempt, each over its own connection |
| NodeSessions.TableGivesRoles | cpp/src/DataStorm/NodeI.cpp:607-669 | a node's session tables, seen from one peer, hold exactly one live session at most, the registered one |
| NodeSessions.NodeSessions.CreateServant | cpp/src/DataStorm/NodeI.cpp:607-669 | returns the peer's session or registers a new one under an unused id; other peers are not affected |
| NodeSessions.NodeSessions.ConfirmCreateSession | cpp/src/DataStorm/NodeI.cpp:319-383 | not found, already connected, or accepted with the session connected before the answer |
| NodeSessions.NodeSessions.Connected | cpp/src/DataStorm/SessionI.cpp:663-674 | connects an idle session over the connection; nothing for a destroyed or connected one; other peers are not affected |
| NodeSessions.NodeSessions.Disconnected | cpp/src/DataStorm/SessionI.cpp:739-812 | disconnects the session unless it is connected over another connection |
| NodeSessions.NodeSessions.Remove | cpp/src/DataStorm/NodeI.cpp:511-526 | unregisters and destroys a session that is registered and not connected |
| Slice.EncodedLength | cpp/include/Ice/StreamableTraits.h:117-134 | a value takes at least minWireSize bytes, and exactly that many if its type has a fixed length |
| SliceReading.SizeAt | cpp/include/Ice/InputStream.h:251-270 | a written size is read back |
| SliceReading.SeqSizeAt | cpp/src/Ice/InputStream.cpp:408-463 | the sequence size check accepts every written sequence, nested to any depth, and never expects more than what follows |
| SliceReading.RoundTrip | cpp/include/Ice/StreamHelpers.h:222-359 | reading a written value of any nested type returns it and stops right after it, whatever surrounds it |
| SliceReading.MessageRoundTrip | cpp/include/Ice/StreamHelpers.h:222-229 | values written one after the other are all read back, with the rest of the buffer untouched |
| SliceReading.ReadHasType | cpp/include/Ice/StreamHelpers.h:222-338 | whatever the bytes, a value that is read has the type asked for: numbers and enumerators in range, sizes that fit, no key twice |
| SliceReading.RewritingIsStable | cpp/include/Ice/StreamHelpers.h:222-338 | writing what was read, from whatever bytes, and reading it again gives the same value |
| SliceOptional.PrefixIsExact | cpp/include/Ice/StreamHelpers.h:460-622 | the VSize or FSize prefix of every optional is the exact number of bytes after it |
| SliceOptional.SkippingIsExact | cpp/src/Ice/InputStream.cpp:1183-1234 | skipping an optional by its format lands right after it |
| SliceOptional.OptionalRoundTrip | cpp/include/Ice/StreamHelpers.h:443-622 | reading an optional returns the value and lands at the same place |
| SliceOptional.HeaderAt | cpp/src/Ice/OutputStream.cpp:906-927 | a written tag and format are read back, the rewind is the header's length, and a header is never the end marker |
| SliceOptional.ReadMemberIsLookup | cpp/src/Ice/InputStream.cpp:1123-1181 | reading a tag returns the member with that tag or none, and stops at the first greater tag |
| SliceOptional.ReceiverGetsWhatItKnows | cpp/src/Ice/InputStream.cpp:1123-1234 | whatever members were written and whatever members the receiver knows, it gets the written value of each it knows and none for those not written |
| SliceFormat.LastByteWeighsMost | cpp/src/Ice/OutputStream.cpp:469-490 | numbers are little-endian |
| SliceFormat.SizeBytes | cpp/include/Ice/OutputStream.h:207-219 | a size up to 254 takes one byte, any other a byte 255 and four bytes |
| SliceFormat.SizeRefusedIff | cpp/include/Ice/InputStream.h:251-270 | a size is refused if and only if bytes are missing or the four bytes hold a negative number |
| SliceFormat.ScalarBytes | cpp/include/Ice/StreamHelpers.h:141-255 | a number is its two's complement, a string its size and its bytes, an enumerator a size |
| SliceFormat.StructStartsWith | cpp/include/Ice/StreamHelpers.h:222-229 | a struct is its first field and then the rest |
| SliceFormat.SequenceStartsWith | cpp/include/Ice/StreamHelpers.h:256-293 | a sequence starts with its size and its first element |
| SliceFormat.DictionaryStartsWith | cpp/include/Ice/StreamHelpers.h:315-325 | a dictionary starts with its size, the key and the value of its first entry |
| SliceFormat.MinWireIsAttained | cpp/include/Ice/StreamableTraits.h:117-134 | minWireSize is the exact minimum: some value takes that many bytes |
| SliceFormat.FixedLengthMeans | cpp/include/Ice/StreamableTraits.h:117-134 | the types of fixed length are the numbers and the structs all of whose fields have a fixed length |
| SliceFormat.AcceptedSizeFits | cpp/src/Ice/InputStream.cpp:408-463 | a sequence size is accepted only if its elements, each as short as can be, fit in what is left |
| SliceFormat.SeqSizeRefusedIff | cpp/src/Ice/InputStream.cpp:408-463 | a non-empty sequence is refused if and only if it and what the enclosing sequences still expect go beyond the buffer |
| SliceFormat.OptionalBytes | cpp/include/Ice/StreamHelpers.h:443-622 | an optional is the value, with the exact number of its bytes before it where its own encoding does not tell: as a size when elements have a fixed length, else in four bytes |
| SliceFormat.HeaderBytes | cpp/include/Ice/StreamableTraits.h:57-84 | the header byte is the tag, or 30, times eight plus the number of the format; a greater tag follows as a size |
| SliceFormat.BadTagIsRefused | cpp/src/Ice/InputStream.cpp:1123-1181 | a header byte of 248 or more is refused |
| SliceFormat.OtherFormatIsRefused | cpp/src/Ice/InputStream.cpp:1123-1181 | a member under the tag but in another format is refused |
| SliceFormat.InsertSetsKey | cpp/include/Ice/StreamHelpers.h:327-338 | reading an entry sets its key and leaves the others alone |
| SliceStreams.OutputStream.WriteSize | cpp/include/Ice/OutputStream.h:207-219 | appends the size encoding |
| SliceStreams.OutputStream.Rewrite | cpp/include/Ice/OutputStream.h:659 | writes the four bytes of a number in place, one by one, and touches no other byte |
| SliceStreams.OutputStream.Write | cpp/include/Ice/StreamHelpers.h:222-331 | appends the encoding of the value |
| SliceStreams.OutputStream.EndSize | cpp/include/Ice/OutputStream.h:242-251 | the buffer is as before but for the four bytes at the position, which hold the number of bytes written since |
| SliceStreams.OutputStream.WriteOptional | cpp/include/Ice/StreamHelpers.h:443-622 | appends the optional encoding, with the size written before or patched afterwards |
| SliceStreams.OutputStream.WriteMember | cpp/src/Ice/OutputStream.cpp:906-927 | appends the member's header and value |
| SliceStreams.InputStream.GetSize | cpp/include/Ice/InputStream.h:251-270 | reads a size or fails as the reading function says |
| SliceStreams.InputStream.GetSeqSize | cpp/src/Ice/InputStream.cpp:408-463 | reads and checks a sequence size |
| SliceStreams.InputStream.Get | cpp/include/Ice/StreamHelpers.h:222-338 | the cursor and the value, or the failure, are those of the reading function, also on malformed data |
| SliceStreams.InputStream.SkipFormat | cpp/src/Ice/InputStream.cpp:1183-1234 | moves the cursor as the skipping function says |
| SliceStreams.InputStream.ReadOpt | cpp/src/Ice/InputStream.cpp:1123-1181 | the search loop finds the tag or rewinds |

## Left out

- Agreement.LateJoinerAgrees: excludes sample filters, samples lost to a discard policy and empty update encodings, for which agreement does not hold.
- Relay.EveryPeerIsToldEverything: speaks of records, which is all the code achieves; the topic-by-topic claim holds exactly under the condition of Relay.ReplayTellsEveryTopicIff.
- Sample-filtered readers beyond what getSamples and the session send them: their divergence is documented behaviour.
- Agreement between several writers of one key.
- Merging of the per-key batches of a multi-key writer in a session, and facets beyond their place in the listener key.
- Topics, topic factories, sessions' topic tables, retry timers and retry counts, callback queues, waiting and notification.
- The node proxies carried by announcements, multicast forwarding, and the multicast lookup.
- The order std::sort gives to subscribers of equal priority: the model keeps the order of insertion, and only priorities are read.
- The order of a dictionary's entries after reading: entries appear in the order in which they were written.
- Classes, exceptions, proxies, string conversion, encoding version 1.0, encapsulations, custom array mappings and rewriteSize.
- Wrap-around of 64-bit ids and of int32 sizes: ids are unbounded, and sizes are assumed to fit.
- Copies and moves of shared pointers other than the counted ones, and the destruction of the factory itself.
