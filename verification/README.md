# Verification of tassis

tassis is a store-and-forward messaging server: clients submit sealed messages for
devices, servers forward them to each other, a broker keeps them until the
recipient acknowledges them, and a database hands out pre-keys and chat numbers.
This project models the parts of it that carry whole-run guarantees and proves
them in Dafny. `dafny verify dfyconfig.toml` checks everything.

| file | what it models |
|---|---|
| `Wrappers.dfy`, `Listings.dfy` | option and result types; listing a set in some order |
| `Text.dfy`, `Keys.dfy` | Go and Lua text primitives; topic names and Redis keys |
| `Offsets.dfy` | stream IDs and the three ways the code compares them |
| `StreamReader.dfy`, `Acks.dfy`, `Trimmer.dfy` | the loops of the Redis broker, as objects and methods |
| `BrokerRuns.dfy` | one Redis-backed topic as a step machine |
| `Messages.dfy`, `Retries.dfy` | forwarded records, sequences, and the chain of retries of one message |
| `MemBroker.dfy` | in-memory topics and the loops that move messages between them |
| `Forwarder.dfy` | the callback table shared by the connections to peer servers |
| `Federation.dfy` | any number of servers, each with its forwarder, forwarding, retrying, transferring and delivering |
| `FederationTopics.dfy` | the federation seen topic by topic: its steps act as the in-memory broker's topics do |
| `PreKeys.dfy`, `RedisPreKeys.dfy` | the pre-key store in memory, in Redis, and the refinement between them |
| `ChatNumbers.dfy`, `RateLimiter.dfy` | the chat-number directory, `getNumber`, and the token account |
| `Connection.dfy` | one client connection: sequences, the unacked table, and the handlers call by call |

Objects that the source updates in place are classes whose methods are proved equal
to functions on values. The concurrent protocols are step machines, and the main
theorems quantify over every finite run of a machine (`IsRun`), that is over every
interleaving the locks and goroutines allow. The machines of the Redis topic, the
forwarder, the pre-keys and the chat numbers are built from those functions; the
federation is built from the forwarder's machine and keeps its topics as one list of
slots, and `FederationTopics.StepActs` shows that each step acts on each topic as the
functions of the in-memory broker do. In the federation and in the connection a call
may take effect and still report an error.

What is abstracted: protobuf marshalling is an inverse pair (`Messages.Bytes`);
encoded identities and device IDs are texts without `:`, `{` and `}`; Redis commands,
scripts and transactions are atomic; clocks, map iteration order, dial, database,
presence and publish results are parameters of the steps; presence hosts are in
lower case. Stream IDs have thirteen-digit milliseconds. The topics of the federation
model acknowledge message by message, as the in-memory broker does; what the Redis
broker's cumulative acks give instead is stated by `BrokerRuns.RedeliveredIff`.

Where a property the code or its documentation suggests does not hold, the code is
kept as it is and the exact condition is proved:

- `offsetLessThan` compares sequence numbers across milliseconds. It is exact unless
  the two IDs are inverted (`LessThanExactIff`); the reader picks the real minimum for
  every map order exactly when no offset is inverted with it (`GatherExactIff`).
- A subscriber can miss entries when the reader gathers too high an offset
  (`InexactGatherWitness`) or when it registers while a read is in flight
  (`LateJoinWitness`). `NoGapsIff` is the exact condition over whole runs.
- `ack.lua` compares sequence numbers as text. `NewerExactIff` gives the arithmetic
  condition, `CoalescingExactIff` the condition under which batching is harmless
  (`TextComparisonWitness`).
- `unregister.lua` deletes a one-member device set whoever is unregistered
  (`UnregisterRefinesIff`, `WrongUnregisterWitness`), and Redis reports an unknown
  identity when every device is already known (`RequestRefines`, `AllKnownWitness`). A
  device unregistered between the two phases of a request makes the source crash, after
  the other devices have lost a key (`SplitRequestIff`, `SplitRequestWitness`).
- After 2^32 requests an answer can run the callback of another message
  (`LateAnswerIff`), and the federation's guarantees stop there.
- Chat numbers are checked for uniqueness on the full number only, although
  docs/README.md says the second identity gets a different short number
  (`OwnShortNumberIff`, `ShortBijectionIff`). docs/README.md also puts the second 5 at
  the end of the short number; the code puts it at the start of the tail.
- The last chance of `getNumber` retries the number refused first (`CandidatesDistinct`).
- A connection whose number cannot be had replies twice to its authentication
  (`TwoRepliesWitness`), and an upload request for nothing gets no reply
  (`NoReplyWitness`), although model/Messages.proto says the server always responds. An
  error reply does not mean that nothing was done (`PublishedUnnoticedWitness`).
  `Discipline` says exactly when each happens.
- A transfer of a device's messages succeeds with messages left behind when its
  subscriber is quiet for an interval (`TransferDeviceMessages`).

## Model

| member | source | states |
|---|---|---|
| `Offsets.OffsetLessThanIs` | broker/redisbroker/redisbroker.go:111-123 | on every pair of offsets the broker meets, including "0", the text comparison with its split, string order and Atoi equals "smaller millisecond or smaller sequence" |
| `Offsets.LessThanExactIff` | broker/redisbroker/redisbroker.go:111-123 | the comparison contains the real ID order and differs from it exactly on inverted pairs |
| `Offsets.AckScriptIs` | broker/redisbroker/ack.lua:4-23 | on rendered IDs the script never errors and stores or keeps exactly as `Commit` does |
| `Offsets.NewerExactIff` | broker/redisbroker/ack.lua:14 | for an older and a newer ID, the script sees the newer one as newer exactly when the milliseconds differ or the older sequence padded to the newer one's width does not exceed it; otherwise it sees the older as newer |
| `Offsets.IdPlusOneIs` | broker/redisbroker/trimmer.go:82-89 | incrementing a rendered ID renders its successor; "0" is left alone |
| `Offsets.SuccessorIsNext` | broker/redisbroker/trimmer.go:55-57 | an ID is at or above the successor exactly when it is above the offset, so the exclusive MINID bound trims inclusively |
| `Text.ShownOrderIff` | broker/redisbroker/ack.lua:14 | when decimal numbers compare alike as text and as numbers, for all pairs |
| `StreamReader.GatherExactIff` | broker/redisbroker/subscriber_loop.go:73-85 | the fold gives the real minimum for every iteration order exactly when no offset is inverted with that minimum |
| `StreamReader.GatherWitness` | broker/redisbroker/subscriber_loop.go:80-82 | of two stream IDs a millisecond apart, with sequences 1 and 0, the later is taken for lower |
| `StreamReader.GatherLowest` | broker/redisbroker/subscriber_loop.go:75-84 | the loop over a stream's subscribers computes the fold over all of them in some order |
| `StreamReader.RedisBroker.GatherStreamsWithOffsets` | broker/redisbroker/subscriber_loop.go:67-90 | every stream with subscribers exactly once, paired with the fold over its subscribers |
| `StreamReader.RedisBroker.NewSubscriber` | broker/redisbroker/subscriber.go:41-64 | registers a fresh subscriber at its starting offset and keeps the registry free of empty streams and of double registration |
| `StreamReader.RedisBroker.Remove` | broker/redisbroker/subscriber.go:67-75 | removes a subscriber, and its stream with the last one |
| `StreamReader.Subscriber.Process` | broker/redisbroker/subscriber.go:82-91 | a batch is filtered and the offset advanced as `ProcessBatch` says |
| `StreamReader.Subscriber.Send` | broker/redisbroker/subscriber.go:102-110 | the batch is processed, or dropped if the subscriber is closed and that branch is taken |
| `StreamReader.Dispatch` | broker/redisbroker/subscriber_loop.go:49-63 | every registered subscriber of the stream processes the whole batch, except closed ones that are skipped |
| `Acks.HighestOf` | broker/redisbroker/ack_loop.go:26-31 | the loop computes the fold over the acks of a stream |
| `Acks.OffsetKeys.Eval` | broker/redisbroker/ack.lua:4-23 | one commit changes the stored offset of its stream as `Commit` says and no other |
| `Acks.OffsetKeys.ProcessAcks` | broker/redisbroker/ack_loop.go:9-47 | after a pass every stream's offset is its old one with the coalesced acks of that stream committed, except those a failing pipeline lost; every ack is told the pipeline's result exactly once |
| `Acks.ForAt` | broker/redisbroker/ack_loop.go:10-20 | the offsets gathered for a stream are those of its acks, in the order of the acks |
| `Acks.CommitAllStoresAcked` | broker/redisbroker/ack_loop.go:25-39 | no sequence of commits stores anything but an acked ID |
| `Acks.CoalescingExactIff` | broker/redisbroker/ack_loop.go:8-39 | for a set of IDs, every order and split into batches ends at the highest ID exactly when no other ID is inverted with it and the script sees it as newer than each |
| `Acks.BatchedEqualsSingly` | broker/redisbroker/ack_loop.go:12-39 | without inversions and with sequences of one width, batched commits and one-by-one commits store the same offset, the maximum |
| `Acks.TextComparisonWitness` | broker/redisbroker/ack.lua:14 | sequence 10 of a millisecond, acked after sequence 9, is never stored |
| `Trimmer.MinIdExact` | broker/redisbroker/trimmer.go:51-60 | trimming to the successor of an offset keeps precisely the entries above the offset |
| `Trimmer.TrimIsLongestSuffix` | broker/redisbroker/trimmer.go:49-77 | both passes leave the longest suffix above the offset that fits the cap |
| `Trimmer.StreamKeys.TrimStreams` | broker/redisbroker/trimmer.go:28-80 | every topic stream is trimmed by its own offset and the cap; other keys are untouched |
| `BrokerRuns.CumulativeAckSafety` | broker/redisbroker/subscriber.go:27-38 | in every run the stored offset is an acked ID; an entry newer than every acked ID is still in the stream unless capped, and lies above every joining or new subscriber's start |
| `BrokerRuns.StoredIsHighest` | broker/redisbroker/ack_loop.go:25-39 | in every run the stored offset is the highest committed ID, if those are safe to coalesce |
| `BrokerRuns.RedeliveredIff` | broker/redisbroker/redisbroker.go:10-17 | if the committed IDs are safe to coalesce, an entry lies above the stored offset exactly when it is newer than every committed ID |
| `BrokerRuns.StartsAtStored` | broker/redisbroker/subscriber.go:27-38 | in every run a subscriber starts at the offset stored when it looked it up, or at the smallest |
| `BrokerRuns.AcksAccountedFor` | broker/redisbroker/ack_loop.go:9-47 | in every run every ack sent is on the channel, committed or failed, once |
| `BrokerRuns.TrimsInRuns` | broker/redisbroker/trimmer.go:49-77 | in every run a trim leaves precisely the entries above the offset looked up for it, and the cap the newest ones |
| `BrokerRuns.RegisteredUntilLeaving` | broker/redisbroker/subscriber.go:67-75 | in every run a subscriber is registered from its registration until it leaves, and a round ends with its dispatch or its error |
| `BrokerRuns.HistoryIsReal` | broker/redisbroker/subscriber_loop.go:48-63 | what the theorems call capped, published, delivered and committed is recorded only when it happens |
| `BrokerRuns.NoGapsIff` | broker/redisbroker/subscriber_loop.go:23-65 | over every run, no subscriber ever misses an entry of the stream between its start and its offset if and only if no dispatch skips an entry some subscriber it reaches has yet to be sent |
| `BrokerRuns.DispatchKeepsNoGapIff` | broker/redisbroker/subscriber.go:82-91 | a batch leaves any subscriber without gap exactly when it is empty or nothing between the subscriber's offset and the offset read from has yet to be sent |
| `BrokerRuns.NoGaps` | broker/redisbroker/subscriber_loop.go:23-65 | in every run with exact gathers and no late joiner below a read in flight, each subscriber has been sent every entry of the stream between its start and its offset, and every such published entry newer than all acks and not capped |
| `BrokerRuns.SafeWhen` | broker/redisbroker/subscriber_loop.go:67-90 | a run without late joiners is of that kind if every gather is over one subscriber, or if the published IDs have no inversions |
| `BrokerRuns.InexactGatherWitness` | broker/redisbroker/subscriber_loop.go:73-85 | a run without late joiners in which a subscriber misses an unacked entry because of an inexact gather |
| `BrokerRuns.DispatchKeepsNoGap` | broker/redisbroker/subscriber.go:82-91 | a batch read from at or below a subscriber's offset leaves it without gap, however inexact the filter |
| `BrokerRuns.RoundDelivers` | broker/redisbroker/subscriber_loop.go:33-63 | a round that reads at most 10000 entries from at or below a subscriber's offset leaves it past everything in the stream and sent all of it above its start |
| `BrokerRuns.RoundInRuns` | broker/redisbroker/subscriber_loop.go:23-63 | a whole round in a safe run brings every subscriber that is not skipped past everything in the stream, unless more than 10000 entries lie above the offset gathered |
| `BrokerRuns.ReadsFirst` | broker/redisbroker/subscriber_loop.go:33-37 | a read returns the first 10000 entries above the offset, or all of them |
| `BrokerRuns.SentOnceInOrder` | broker/redisbroker/subscriber.go:84-89 | in every run over IDs without inversions each subscriber is sent entries above its start in stream order, none twice |
| `BrokerRuns.LateJoinIff` | broker/redisbroker/subscriber_loop.go:48-63 | a subscriber registering during a read stays without gap exactly when the stream holds nothing between its start and the offset read from |
| `BrokerRuns.LateJoinWitness` | broker/redisbroker/subscriber_loop.go:24-63 | a run in which such a subscriber misses an entry |
| `Retries.ChainSpacing` | service/serviceimpl/forwarding.go:65-95 | along a chain of retries the first failure never changes and failures are a whole interval apart |
| `Retries.DelayExact` | service/serviceimpl/forwarding.go:65-72 | an attempt starts at once, or exactly one interval after the last failure if that has not passed yet |
| `Retries.GivenUpIff` | model/messages.go:77-100 | a failing record is given up exactly when its first failure lies more than the timeout in the past; otherwise it keeps its first failure and gets a new last one |
| `Retries.RetryBound` | service/serviceimpl/forwarding.go:65-95 | along one chain of retry records there are at most timeout / interval + 2 attempts; a hop to another server or a transfer starts a new chain |
| `MemBroker.MemTopic.Publish` | broker/membroker/membroker.go:29-42 | a message is added under a number never used before, and nothing else changes |
| `MemBroker.MemTopic.Ack` | broker/membroker/membroker.go:48-52 | exactly the acked message is removed |
| `MemBroker.RecordCell.Mark` | model/messages.go:77-83 | the last failure is now, in whole milliseconds; the first failure is set once |
| `MemBroker.FailMessage` | service/serviceimpl/forwarding.go:74-95 | the record is marked; the source is acked exactly when the record is older than the timeout or has been published for retry; the retry topic gains the marked record exactly in the latter case, and may be the source |
| `MemBroker.ForwardMessage` | service/serviceimpl/forwarding.go:57-129 | the device topic gains the sealed bytes exactly when the addressee is on this server and the publish succeeds; then, and when the peer of an addressee elsewhere accepts or the record is unreadable, there is only the ack besides; otherwise the record is dropped for its age, published for retry or left; in no case is it lost |
| `FederationTopics.ForwardMessageRuns` | service/serviceimpl/forwarding.go:57-129 | whatever the services answer, the federation's steps for one worker, peer and callback included, leave every topic of its server as `ForwardMessage` does |
| `FederationTopics.StepActs` | service/serviceimpl/serviceimpl.go:681-701 | on every topic, numbered as the broker numbers it, each step of the federation is a publish, an ack or nothing; a submission or a peer's request is published as sealed bytes on the device topic exactly if the addressee was found on that server, and otherwise as a record on its forwarding topic |
| `FederationTopics.RequestGoesTo` | service/serviceimpl/forwarding.go:120-126 | a request is sent to the host presence named, which is another one, with the record's message, and its callback holds the record |
| `MemBroker.TransferDeviceMessages` | service/serviceimpl/forwarding.go:173-199 | exactly the moved messages leave the device topic, and arrive in order under consecutive numbers as records to the device that have not failed; it succeeds exactly when no publish failed, and then the topic is empty exactly when its subscriber handed over everything |
| `Federation.Conservation` | service/serviceimpl/forwarding.go:57-129 | in every reachable state of any number of servers, each building fewer than 2^32 requests between two starts, a submission acked to its sender has an unacked genuine copy on some topic, or its addressee's client acked exactly its bytes, or it was discarded more than the timeout after an attempt really failed |
| `Federation.HistoryIsReal` | service/serviceimpl/forwarding.go:74-126 | what conservation calls received, discarded and failed happened: a client acked that slot, a worker finished with an expired record, an attempt was marked then; a slot leaves its topic only so or because a worker finished with it |
| `Federation.ErrorsKeepSource` | service/serviceimpl/forwarding.go:88-126 | a publish or an answer that reports an error never leads to the ack of the source; a publish that reports none does |
| `Federation.CrashForgets` | forwarder/forwarder.go:17-31 | a crash forgets the callbacks, answers and work of its server and nothing else |
| `Federation.ReadWorkGenuine` | forwarder/forwarder.go:57-82 | the callback a peer's answer runs is told of success only if the peer has published a copy of that callback's message |
| `Federation.NoFabrication` | service/serviceimpl/serviceimpl.go:668-707 | through any hops, retries and transfers a device topic and its client only ever see sealed bytes submitted for that device, on the server where presence placed it, and every forwarded record unmarshals to a submission, on a server where presence did not |
| `Federation.FinishConserves` | service/serviceimpl/forwarding.go:103-126 | acking a source conserves every submission, because a newer copy exists or the timeout has passed |
| `Federation.PublishedGenuine` | service/serviceimpl/forwarding.go:173-193 | whatever any step publishes carries its submission unchanged, on the addressee's topic or as a record |
| `Forwarder.ForwarderObject.Forward` | forwarder/forwarder.go:35-55 | dials only unknown hosts, registers the callback under the new sequence, or fails it at once |
| `Forwarder.ForwarderObject.TriggerCallbackFor` | forwarder/forwarder.go:70-82 | runs and removes the callback of the sequence, if any |
| `Forwarder.Correlation` | forwarder/forwarder.go:35-82 | under 2^32 builds each callback is pending or has run, never both, runs at most once, and is told of success only if the peer acked that very message |
| `Forwarder.AnswerRuns` | forwarder/forwarder.go:57-82 | in every run reading an answer to a call whose callback is pending runs that callback with the result answered |
| `Forwarder.DialledOnce` | forwarder/forwarder.go:38-50 | in every run a message is sent exactly if a message was sent to that host before or dialling it succeeds; otherwise its callback is told of an error at once |
| `Forwarder.AckedIsReal` | forwarder/forwarder.go:57-68 | a call counts as acked exactly if a peer has answered it with an ack |
| `Forwarder.ForwardKeepsPendingIff` | model/messages.go:111-116 | at any number of builds, forwarding keeps all pending callbacks exactly when the wrapped sequence is free |
| `Forwarder.LateAnswerIff` | forwarder/forwarder.go:51-80 | at any number of builds, a late answer runs the callback just registered exactly when a multiple of 2^32 messages lies between the two |
| `PreKeys.MemDb.Register` | db/memdb/memdb.go:37-59 | same signed key appends one-time keys, another replaces the registration |
| `PreKeys.RegisterMeans` | db/memdb/memdb.go:46-58 | the device holds the given signed key, with the new one-time keys after the old ones if it is the same; no other device changes |
| `PreKeys.MemDb.Unregister` | db/memdb/memdb.go:61-79 | removes the device, and the identity with its last device |
| `PreKeys.MemDb.RequestPreKeys` | db/memdb/memdb.go:81-121 | the registered devices not listed as known, and no others, are answered for, each once, with their signed key and their last one-time key, which they lose; unknown identity exactly when there is none |
| `PreKeys.OneTimeKeysConserved` | db/memdb/memdb.go:46-118 | over any run, for each device, keys registered are keys in answers, keys held and keys dropped, as multisets |
| `PreKeys.KeysInAnswer` | db/memdb/memdb.go:104-118 | an answer gives out at most one key of a device, its last |
| `RedisPreKeys.RegisterRefines` | db/redisdb/register.lua:8-17 | register.lua followed by LPUSH commutes with the refinement, the list being the reverse of the stack |
| `RedisPreKeys.UnregisterRefinesIff` | db/redisdb/unregister.lua:7-15 | commutes exactly when the device is registered or its identity does not have exactly one device |
| `RedisPreKeys.RequestRefines` | db/redisdb/redisdb.go:146-208 | commutes, with the same pre-keys in the same order; the answers differ exactly when the identity is known but all its devices are too |
| `RedisPreKeys.ListsWanted` | db/redisdb/redisdb.go:155-178 | the device set lists the devices the in-memory store answers for: those registered and not known |
| `RedisPreKeys.SplitRequestIff` | db/redisdb/redisdb.go:146-208 | with anything happening between SMEMBERS and the pipeline, the request can be answered exactly when all devices listed are still registered, and then answers for them as they are; in any case the registered ones lose their last key |
| `RedisPreKeys.WrongUnregisterWitness` | db/redisdb/unregister.lua:7-9 | unregistering an unknown device deletes the set of an identity with one device |
| `RedisPreKeys.AllKnownWitness` | db/redisdb/redisdb.go:204-206 | Redis reports an unknown identity where the in-memory store answers with no pre-keys |
| `RedisPreKeys.SplitRequestWitness` | db/redisdb/redisdb.go:179-196 | a device unregistered between the phases fails the request and costs the other device its key |
| `RedisPreKeys.PipelineAnswers` | db/redisdb/get_pre_key.lua:4-7 | popping heads in the pipeline hands out the last key of each device |
| `RedisPreKeys.RunsRefine` | db/redisdb/redisdb.go:101-208 | after any run without the wrong unregistering, Redis refines the in-memory store |
| `RedisPreKeys.RedisDb.Register` | db/redisdb/redisdb.go:101-127 | the script and the LPUSH loop change the keys as specified |
| `RedisPreKeys.RedisDb.Unregister` | db/redisdb/unregister.lua:7-15 | the script changes the keys as specified |
| `RedisPreKeys.RedisDb.ListWanted` | db/redisdb/redisdb.go:155-178 | lists the members of the device set that are not known, each once |
| `RedisPreKeys.RedisDb.GetPreKey` | db/redisdb/get_pre_key.lua:4-7 | reads the signed key and pops the head of the list |
| `RedisPreKeys.RedisDb.RunPipeline` | db/redisdb/redisdb.go:179-207 | pops for every device listed, survives exactly if each has a hash, and reports an unknown identity when none was listed |
| `RedisPreKeys.RedisDb.RequestPreKeys` | db/redisdb/redisdb.go:146-208 | lists the devices first and runs the pipeline over them after any operations of others in between |
| `RedisPreKeys.RedisDb.AllRegisteredDevices` | db/redisdb/redisdb.go:236-261 | parsing the keys matching "device:*" lists every device with a device hash exactly once |
| `RedisPreKeys.ListedAreRegistered` | db/redisdb/redisdb.go:236-261 | after any operations, the wrong unregistering included, those devices are exactly the registered ones |
| `Keys.DeviceKeyRoundTrip` | db/redisdb/redisdb.go:368-374 | splitting and trimming a device key gives back its identity and device |
| `Keys.KeyTextInjective` | db/redisdb/redisdb.go:368-382 | keys of different devices, identities or kinds never clash, and "device:*" matches the device hashes only |
| `Keys.TopicsDistinct` | service/serviceimpl/serviceimpl.go:724-730 | no two devices share a topic |
| `Keys.DeviceTopicIsNotForwarding` | service/serviceimpl/forwarding.go:15-18 | no device's topic is a forwarding topic |
| `Keys.StreamsDistinct` | broker/redisbroker/redisbroker.go:103-109 | different topics have different streams and offset keys |
| `ChatNumbers.IndexInvariant` | db/memdb/memdb.go:169-196 | after any registrations identities and numbers are inverse, exactly the registered numbers have short numbers, lookups by short number are consistent, and nothing assigned ever changes |
| `ChatNumbers.AnswerIsKept` | db/memdb/memdb.go:178-195 | an answered number and short number are what the directory holds for the identity ever after |
| `ChatNumbers.ShortBijectionIff` | db/memdb/memdb.go:198-209 | every number is found by its short number exactly when no two numbers share one |
| `ChatNumbers.OwnShortNumberIff` | db/memdb/memdb.go:184-194 | an identity's short number finds its number exactly as long as no later registration is given the same short number |
| `ChatNumbers.SharedShortNumberWitness` | db/memdb/memdb.go:184-194 | two identities given one short number, the later one found |
| `ChatNumbers.CandidateShape` | service/serviceimpl/serviceimpl.go:480-496 | every candidate has its short number as a prefix and the preferred number's digits without 5s |
| `ChatNumbers.CandidateDigits` | service/serviceimpl/serviceimpl.go:480-496 | the candidate of attempt i is i fives, the first twelve digits, i fives and the rest, the short number ending after the first twelve digits; the last chance is the preferred number for both |
| `ChatNumbers.CandidatesDistinct` | service/serviceimpl/serviceimpl.go:480-496 | candidates before the last chance differ pairwise, in number and short number; the last chance is the first number again |
| `ChatNumbers.BuildCandidate` | service/serviceimpl/serviceimpl.go:480-496 | the inner loop builds the candidate of an iteration |
| `ChatNumbers.Directory.RegisterChatNumber` | db/memdb/memdb.go:169-196 | answers an existing number, refuses a taken one, or adds to all four maps |
| `ChatNumbers.Directory.GetNumber` | service/serviceimpl/serviceimpl.go:475-508 | with any registrations by others in between: at most length - 11 attempts, trying the candidates in order; the answer is what the directory holds; a new number is the first free candidate; failure only when all are taken, and undisturbed exactly then |
| `RateLimiter.ChatNumberKeys.Eval` | db/redisdb/register_chat_number.lua:8-49 | the script updates the four hashes, the last time and the token counter as specified |
| `RateLimiter.ScriptRefinesDirectory` | db/redisdb/register_chat_number.lua:13-24 | without rate limiting and empty numbers the script answers and registers as the in-memory directory |
| `RateLimiter.RateLimit` | db/redisdb/redisdb.go:280-315 | for any interleaving and any clock values, call k registers no earlier than 500k ms after the first call, at most (t - t0)/500 + 1 numbers are registered by t, and each number has its own call |
| `RateLimiter.AtOnceIff` | db/redisdb/register_chat_number.lua:26-41 | in every run the n-th call to reach the limiter registers at once if and only if it is the first or its clock is 500 * n ms past the first; otherwise it sleeps a positive time that ends exactly then, and the directory stays as it is |
| `RateLimiter.SettledAtOnce` | db/redisdb/register_chat_number.lua:13-24 | in every run a call for an identity with a number, or for a taken number, changes nothing and is told so |
| `RateLimiter.AfterSleepIff` | db/redisdb/redisdb.go:297-315 | in every run a call registers after its sleep exactly when its identity still has no number and its number is still free |
| `RateLimiter.AccountInvKept` | db/redisdb/register_chat_number.lua:26-41 | the token count is the time between first and last call less 500 for each later call |
| `Connection.ClientConnection.HandleInboundMessage` | service/serviceimpl/serviceimpl.go:319-328 | the acker is stored under the next sequence |
| `Connection.ClientConnection.HandleAck` | service/serviceimpl/serviceimpl.go:510-532 | the entry goes exactly when it exists and its broker ack succeeds |
| `Connection.AckTable` | service/serviceimpl/serviceimpl.go:319-328 | under 2^32 builds server sequences are distinct, a running acker is that of the message delivered under the acked sequence, an entry stays until its broker ack succeeded, and the broker is acked only for sequences the client acked |
| `Connection.UnackedIff` | service/serviceimpl/serviceimpl.go:510-532 | over every run a broker message is in the table under a sequence if and only if it was delivered under it and no acker of it has returned without error since |
| `Connection.AckRunsAcker` | service/serviceimpl/serviceimpl.go:514-523 | in every run an acknowledgement runs the acker of its sequence exactly if there is one |
| `Connection.BrokerAckedIff` | service/serviceimpl/serviceimpl.go:525-529 | in every run a message is acked to the broker exactly if its acker took effect, whatever it reported |
| `Connection.BoundOnce` | service/serviceimpl/serviceimpl.go:351-356 | the bound address is written at most once |
| `Connection.BoundIffAuthenticated` | service/serviceimpl/serviceimpl.go:411-442 | in every state of every run the connection is bound to an address exactly when an authentication request had it unpacked from its login, then its nonce and then its signature verified, before it was bound; messages are delivered exactly once a subscriber was opened |
| `Connection.Discipline` | service/serviceimpl/serviceimpl.go:343-404 | in every run replies come in request order with their request's sequence; a handled request gets one reply, except two for an authentication exactly when no number could be had, and none for an ack, an upload request for nothing or an unsupported message; the last reply is positive exactly when the purpose was carried out and reported, and an error is sent for a purpose carried out all the same exactly when its call reported an error; an upload request asks for as many authorizations as it is for |
| `Connection.EffectsFirst` | service/serviceimpl/serviceimpl.go:411-707 | in every state of every run, whatever calls do and report: a request leads only to calls its bound address allows, to none after a failed one (numbers and uploads excepted), at most once to its purpose (uploads excepted); each call comes only after those it depends on, messages are published where the addressee was found, errors are sent only to refused requests or after a failed call, acks and data only for the purpose they answer |
| `Connection.TwoRepliesWitness` | service/serviceimpl/serviceimpl.go:441-472 | a run in which an authentication is answered with an error and then positively |
| `Connection.PublishedUnnoticedWitness` | service/serviceimpl/serviceimpl.go:696-706 | a run in which a published message is answered with an error |
| `Connection.NoReplyWitness` | service/serviceimpl/serviceimpl.go:592-612 | a run in which an upload request for nothing is handled without a reply |

## Left out

- web, webclient, dialing of peers, main.go and telemetry: sockets and configuration.
- S3 attachments and the contents of replies: only which replies are sent is modelled.
- Signature verification, nonces, identity and base32 encodings: a verified login is a step parameter with a non-empty identity key.
- Redis command errors: failing ack pipelines, publishes and calls of the connection handlers are modelled, errors of the reader, the trimmer and the pre-key scripts are not.
- Other server processes on the same Redis stream: one process's reader and subscribers are modelled.
- The channel of a topic in the in-memory broker, its snapshot for new subscribers and its 15-second drop: the federation model lets any published message be processed at any time, any number of times.
- Liveness: blocked sends, dead connections and goroutines that never return.
- MemBroker.ForwardMessage: the sleep before a retry shows only in the clock readings the call is given; what it guarantees is stated in `Retries.dfy`.
- RedisPreKeys.RunsRefine: requests are one atomic step in these runs, as in the in-memory store; `SplitRequestIff` says what a split one does.
- startUserTransfers: which devices are transferred and that they are unregistered afterwards; a transfer may happen for any device that presence places elsewhere.
- Connection.Discipline: closing the connection after a failed authentication is not modelled, since the handler may still take requests until it notices.
- Retries.RetryBound: an interval below one millisecond has no bound, because failure times are kept in whole milliseconds.
- PreKeysRemaining, PreKeysLow polling, presence repositories, the publisher cache, option defaults and FindChatNumberByIdentityKey: they would only add easy members.
- The error Redis returns for an unknown short number or identity, which is the client library's own rather than the model error.
