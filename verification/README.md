# Proofs about StepMesh and its scheduler

A Dafny model of the stateful algorithms of this repository and proofs about them:
the hash map behind the attention/FFN worker, the batch protocol between workers
and servers, the control protocols of the transport layer, the Rabit tracker, key
slicing and striping, metadata packing, and the autoscaler.

The whole project is verified with `dafny verify dfyconfig.toml`.

## What is proved

- **Hash map** (`HashChains`, `HashMap`, `HashMapRuns`). For every hash function and
  every sequence of operations, the table answers as a mathematical map
  (`HashMapRuns.Run`). Every operation keeps the chain structure: each occupied bucket
  is on one chain that starts at its key's main bucket, follows strictly growing ranks
  and ends in a self-loop; buckets and slots are in bijection; the cached tail names
  the last slot's bucket. All walks and probes terminate, and the pairs array is never
  overrun.
- **Batch protocol** (`AfBatch`, `AfBatchRuns`, `AfAnswers`, `Responses`, `AfSystem`,
  `AfWorker`, `WorkerMask`, `RequestQueue`). Under every interleaving that keeps each
  batch's messages in order, the server hands every batch to the handler exactly once,
  with that batch's pushes and this server's part of the pulls
  (`AfBatchRuns.EndToEnd`); over all servers each pull is seen once
  (`AfBatchRuns.AllServersSee`). Each server answers every message at most once,
  exactly once when everything has come and been responded to (`AfAnswers`). Hence
  response counters are exact, a returned `Wait` means that everything has been
  answered, and it returns once everything has been answered and counted (`AfSystem`,
  `AfWorker`). The bit mask and queues pair the k-th requests of all workers.
- **Control protocols** (`Barrier`, `BarrierScheduler`, `Resender`, `ResenderRuns`,
  `ResenderLoss`, `UcxReorder`, `PackMeta`). No node leaves its k-th barrier before
  every member has entered its k-th, and the scheduler's code refines the protocol;
  over a network that loses, duplicates and reorders, each message is passed up at
  most once, and can be lost exactly when another one has its key and an end in common
  (`ResenderLoss`); requests of a sender are released in order, across wrap-around of
  the ids; unpacking inverts packing exactly on well-formed metadata.
- **Tracker** (`TrackerRing`, `TrackerAccept`). The shared ring visits every node once
  and shares a link with the tree at every node that has children, the relabelled ring
  is i -> i+1 mod n, the tree is carried over by the same bijection, and in a fresh
  start every link is dialled exactly once, by its later end.
- **Slicing and striping** (`KvSlicing`, `KvGather`, `Striping`, `StripedLink`).
  Slicing and gathering restore keys, values and lengths in any order of arrival; a
  striped message is handed up only when all its bytes have landed.
- **Autoscaler** (`Allocation`, `LocalSearch`, `Stability`, `LiveAutoscaler`). The
  search is bounded and its choice is safe whenever an allowed safe plan was
  evaluated; the control loop replaces processes only while draining, within the
  limit, after enough agreeing windows and never before a cooldown is over, starts
  with the initial allocation, and always knows what it applied.

Where the code does not do what one might expect, the exact condition is proved:

- `Resender.RejectedTimestamp`, `ResenderRuns.FailsExactly`: timestamp 32767 is
  `Meta::kEmpty` (comm/src/customer.cc:22-23), so a message with it ends both sender
  and receiver.
- `Resender.KeysEqual`, `Resender.WorkersCollide`, `ResenderLoss.ReliableIff`: keys hold
  16 bits of the app id and 8 of each node id, so worker 128 has the keys of worker 0,
  and messages are lost exactly when there are such nodes; from timestamp 2^30 on the
  sign extension wipes out even these bits.
- `Barrier.ExpectedIsMembers`, `BarrierScheduler.PerInstanceIsEarly`: a group barrier
  works exactly when as many nodes take part as requests are waited for.
- `Responses.TwiceNeverCompletes`, `Responses.TwiceEndsEarly`: what a second answer
  of a server would do.
- `AfAnswers.OwnValue`: two pulls with one key get the first one's value.
- `WorkerMask.MaskLimit`: the masks work for at most 30 workers.
- `KvGather.RestoresIff`: the gather checks let a repeated slice through, and a slice
  with keys that are not in the list (`CheckedTwice`, `CheckedStrange`).
- `Stability.NoBudget`: a slower unsafe proposal for the current allocation replaces
  the current plan. The one caller (scheduler/cli/run_hexgen3_live_autoscaler.py:786)
  never makes such a proposal.
- `PackMeta.RoundTrip`, `Striping.PoolSizeLimit`, `AfBatch.FlagsOfRequest`: which
  metadata, pools and request shapes the code handles.

## Conventions

Objects that the source updates in place are classes; protocols are state machines
whose runs are arbitrary event sequences. Bit masks are arithmetic on powers of two
in the hash map, and bit vectors in `Resender`, `Striping` and `WorkerMask`. A failed
`PS_CHECK` on data is a `None` or a false result. The load factor constants follow the
source's float arithmetic: `_mlf` is 167772160 and the pairs array holds floor(n * 13421773 / 2^24) + 4 pairs, 13421773 / 2^24 being 0.8f.

## Model

| member | source | states |
|---|---|---|
| `HashMapRuns.Run` | comm/include/ps/hash_table8.hpp:656-910 | for every hash function and every legal operation sequence the answers are those of a map |
| `HashMapRuns.Do` | comm/include/ps/hash_table8.hpp:656-910 | one operation answers and changes the contents as on a map |
| `HashMapModel.LoadLeavesRoom` | comm/include/ps/hash_table8.hpp:1065-1097 | passing the load check leaves two empty buckets and room for one more pair |
| `HashMapModel.HashMap.FindEmptyBucket` | comm/include/ps/hash_table8.hpp:1579-1633 | ends with an empty bucket in range; the sentinels never look empty |
| `HashMapModel.HashMap.Sweep` | comm/include/ps/hash_table8.hpp:1610-1632 | the `_last` sweep with the half-table probe reaches an empty bucket |
| `HashMapModel.HashMap.FindLastBucket` | comm/include/ps/hash_table8.hpp:1635-1646 | reaches the end of the chain |
| `HashMapModel.HashMap.FindPrevBucket` | comm/include/ps/hash_table8.hpp:1649-1661 | finds the one predecessor on the chain |
| `HashMapModel.HashMap.FindFilledBucket` | comm/include/ps/hash_table8.hpp:1333-1363 | the key's bucket, or INACTIVE exactly when the key is absent |
| `HashMapModel.HashMap.FindFilledSlot` | comm/include/ps/hash_table8.hpp:1367-1398 | the key's slot, or the fill count exactly when the key is absent |
| `HashMapModel.HashMap.KickoutBucket` | comm/include/ps/hash_table8.hpp:1473-1490 | a foreign entry is moved to an empty bucket, chains and slots intact, and its old bucket is free |
| `HashMapModel.HashMap.FindUniqueBucket` | comm/include/ps/hash_table8.hpp:1543-1563 | an empty bucket where placing the hash keeps the table consistent |
| `HashMapModel.HashMap.FindOrAllocate` | comm/include/ps/hash_table8.hpp:1496-1541 | the key's own bucket, or an empty one where placing it keeps the table consistent |
| `HashMapModel.HashMap.EmplaceNew` | comm/include/ps/hash_table8.hpp:64-67 | the contents gain the pair, all invariants kept, the cached tail is the new bucket |
| `HashMapModel.HashMap.BucketsFor` | comm/include/ps/hash_table8.hpp:1171-1180 | a power of two at least as large as required |
| `HashMapModel.HashMap.Rehash` | comm/include/ps/hash_table8.hpp:1171-1239 | contents unchanged, all chains rebuilt for the new size |
| `HashMapModel.HashMap.Rebuild` | comm/include/ps/hash_table8.hpp:1149-1169 | pairs moved over, every bucket inactive, two non-empty sentinels |
| `HashMapModel.HashMap.CheckExpandNeed` | comm/include/ps/hash_table8.hpp:1243-1247 | contents unchanged, two empty buckets and a free pair |
| `HashMapModel.HashMap.EraseBucket` | comm/include/ps/hash_table8.hpp:1295-1313 | the pair leaves its chain; the returned bucket is the free one |
| `HashMapModel.HashMap.SlotToBucket` | comm/include/ps/hash_table8.hpp:1315-1330 | the bucket that holds a slot |
| `HashMapModel.HashMap.EraseSlot` | comm/include/ps/hash_table8.hpp:1267-1293 | the last pair fills the gap and its bucket is relabelled, consistently |
| `HashMapModel.HashMap.Insert` | comm/include/ps/hash_table8.hpp:756-766 | inserts exactly when the key is absent |
| `HashMapModel.HashMap.DoInsert` | comm/include/ps/hash_table8.hpp:726-737 | the key's bucket, filled with the pair exactly when it was absent |
| `HashMapModel.HashMap.InsertOrAssign` | comm/include/ps/hash_table8.hpp:740-753 | the contents map the key to the value |
| `HashMapModel.HashMap.InsertUnique` | comm/include/ps/hash_table8.hpp:795-802 | adds an absent key |
| `HashMapModel.HashMap.Subscript` | comm/include/ps/hash_table8.hpp:871-883 | the slot of the key's pair, made with the default value if absent |
| `HashMapModel.HashMap.TryGet` | comm/include/ps/hash_table8.hpp:656-667 | the mapped value, or nothing |
| `HashMapModel.HashMap.Erase` | comm/include/ps/hash_table8.hpp:900-910 | removes exactly the key and says whether it was there |
| `HashChains.UnpackPack` | comm/include/ps/hash_table8.hpp:61-67 | slot and hash bits of an index word are read back unchanged |
| `HashChains.PlaceInMain` | comm/include/ps/hash_table8.hpp:1543-1563 | a hash placed in its empty main bucket starts a chain and keeps consistency |
| `HashChains.PlaceAtTail` | comm/include/ps/hash_table8.hpp:1543-1563 | a hash placed behind the end of its chain keeps consistency |
| `HashChains.MoveKeeps` | comm/include/ps/hash_table8.hpp:1473-1490 | moving an entry to an empty bucket keeps chains and slots |
| `HashChains.UnlinkKeeps` | comm/include/ps/hash_table8.hpp:1309-1313 | unlinking a later entry keeps everything but its slot |
| `HashChains.DropMainKeeps` | comm/include/ps/hash_table8.hpp:1298-1307 | removing the first entry, by pulling up the second, keeps everything but its slot |
| `HashChains.FillHoleKeeps` | comm/include/ps/hash_table8.hpp:1267-1293 | giving the last slot's bucket the freed slot closes the gap |
| `HashChains.SomeEmpty` | comm/include/ps/hash_table8.hpp:1579-1633 | with fewer pairs than buckets some bucket is empty |
| `AfBatch.SendBatch` | comm/include/ps/af_tensor_app.h:316-366 | each server gets all pushes, then its pulls, flagged and stamped as specified; the pulls of all servers, one server after the other, are the pull list up to the last whole share |
| `AfBatch.PulledOnce` | comm/include/ps/af_tensor_app.h:272-314 | every server is sent the push list; the pulls sent to servers 0, 1, ... join up to the pull list, each pull once, up to the last whole share |
| `AfBatch.FlagsOfRequest` | comm/include/ps/af_tensor_app.h:316-366 | a server's messages are a well-flagged batch exactly for the deliverable request shapes |
| `AfBatch.AFTensorServer.KVHandler` | comm/include/ps/af_tensor_app.h:630-692 | updates the batches, the reorder buffer, the acks and the handled list as one protocol step |
| `AfBatch.AFTensorServer.FindAwaiting` | comm/include/ps/af_tensor_app.h:660-668 | finds the first set-aside batch that waits for the message |
| `AfBatchRuns.HandledExactlyOnce` | comm/include/ps/af_tensor_app.h:630-692 | under every schedule exactly the complete batches have been handled, each once and fully assembled, and exactly the arrived pushes of batches acked, each once |
| `AfBatchRuns.NothingLeftOpen` | comm/include/ps/af_tensor_app.h:630-692 | when all messages have arrived, every batch has been handled and nothing is pending |
| `AfBatchRuns.RequestIsBatch` | comm/include/ps/af_tensor_app.h:316-366 | the messages of a deliverable request form a batch with consecutive timestamps |
| `AfBatchRuns.AssembleSplits` | comm/include/ps/af_tensor_app.h:413-422 | the assembled record lists pushes and pulls in order |
| `AfBatchRuns.HandlerSeesRequest` | comm/include/ps/af_tensor_app.h:316-366 | the assembled batch of server i has the push list and part i of the pull list, with their timestamps |
| `AfBatchRuns.EndToEnd` | comm/include/ps/af_tensor_app.h:97-147 | requests of any workers, in any allowed interleaving, each reach the handler exactly once with their own data, and each push of a batch is acked exactly once |
| `AfBatchRuns.AllServersSee` | comm/include/ps/af_tensor_app.h:97-147 | once everything has arrived everywhere, each request has been handled once per server, and over all servers the handlers see its pull list, each pull once and at its own server, up to the last whole share |
| `AfBatchRuns.RunAcks` | comm/include/ps/af_tensor_app.h:643-645 | in every run the acks are the arrived pushes of batches, each once; single requests are not acked |
| `AfAnswers.Response` | comm/include/ps/af_tensor_app.h:482-535 | answers as specified: a single request as a whole, a batch only its pulls; ResponseIsRight says what the answers are |
| `AfAnswers.BatchAnswered` | comm/include/ps/af_tensor_app.h:503-533 | with one tensor per pull key each pull is answered once, in order, with the value of the first pull with its key |
| `AfAnswers.ResponseIsRight` | comm/include/ps/af_tensor_app.h:482-535 | for every assembled batch, single or not, an answer to a pull has its key and the value given for the first pull with that key, and an answer to a push has nothing |
| `AfAnswers.LonePull` | comm/include/ps/af_tensor_app.h:486-498 | a lone pull gets its own value |
| `AfAnswers.OwnValue` | comm/include/ps/af_tensor_app.h:507-531 | a pull gets its own value, whatever the values are, exactly when no earlier pull has its key |
| `AfAnswers.ResponseAnswersOwed` | comm/fserver/csrc/public.hpp:91-106 | responding to an assembled batch answers exactly the messages that KVHandler has not acked |
| `AfAnswers.AnsweredOnce` | comm/include/ps/af_tensor_app.h:482-535 | under every schedule and order of responses no timestamp of a worker is answered twice, and only after it came |
| `AfAnswers.AllAnsweredOnce` | comm/include/ps/af_tensor_app.h:482-535 | when everything has come and been responded to, every message has been answered exactly once |
| `AfSystem.ServersAnswerOnce` | comm/include/ps/af_tensor_app.h:630-692 | a worker gets at most one answer per timestamp from a server that runs the batch protocol |
| `AfSystem.CounterOverServers` | comm/src/customer.cc:38-126 | against such servers the counter never exceeds the count and equals it exactly when every server is skipped or counted |
| `AfSystem.WaitOverServers` | comm/include/ps/af_tensor_app.h:152-163 | against such servers, a batch seen complete is answered by every server, every push and pull of it |
| `AfSystem.FinishedAnswers` | comm/include/ps/af_tensor_app.h:482-535 | a server to which everything has come, and whose batches are all responded to, has answered each timestamp it was sent exactly once |
| `AfSystem.SettledIsComplete` | comm/src/customer.cc:53-126 | a timestamp that every server was sent is complete once every server is finished, its answer has come and every answer is counted |
| `AfSystem.RequestAsked` | comm/include/ps/af_tensor_app.h:316-366 | every server is sent a message with each timestamp of a request |
| `Responses.CounterIsExact` | comm/src/customer.cc:38-126 | when no server answers twice, the counter never exceeds the count and equals it exactly when every server is skipped or handled and counted |
| `Responses.TwiceNeverCompletes` | comm/src/customer.cc:53-74 | once every server is skipped or counted, the wait can end exactly when no answer was counted twice |
| `Responses.TwiceEndsEarly` | comm/src/customer.cc:53-74 | a server that answers twice can end the wait before another has answered |
| `Responses.StaysComplete` | comm/src/customer.cc:53-84 | a request seen complete stays complete |
| `Responses.BatchWaitIsSound` | comm/include/ps/af_tensor_app.h:152-163 | when a batch wait has seen every timestamp complete, all servers have answered all of them |
| `AfWorker.Customer.NewRequest` | comm/src/customer.cc:38-51 | the next timestamp, with an empty counter |
| `AfWorker.Customer.AddResponse` | comm/src/customer.cc:81-84 | counts the skipped servers |
| `AfWorker.Customer.DirectProcess` | comm/src/customer.cc:107-126 | runs the handler before it counts the answer |
| `AfWorker.Stamp` | comm/include/ps/af_tensor_app.h:106-130 | consecutive timestamps for pushes and pulls, all but the first remembered; without any the batch starts at 0 |
| `AfWorker.AFTensorWorker.ZBatchPushPull` | comm/include/ps/af_tensor_app.h:97-147 | the batch is remembered in the hash map under its first timestamp; without pushes and shares an empty one under 0 |
| `AfWorker.StampedRequest` | comm/include/ps/af_tensor_app.h:106-130 | a deliverable request with the timestamps that ZBatchPushPull gives it is stamped as the batch protocol expects |
| `AfWorker.AFTensorWorker.Wait` | comm/include/ps/af_tensor_app.h:152-163 | returns exactly when all timestamps of the batch are complete, and then forgets the batch; if no server answers twice, every server has then answered each of them |
| `AfWorker.AFTensorWorker.WaitForBatch` | comm/include/ps/af_tensor_app.h:97-163 | against servers that run the batch protocol, a wait for a stamped batch returns only when every push and pull of it is answered by every server, and does return once the batch has settled |
| `AfWorker.Customer.CompleteIsAnswered` | comm/src/customer.cc:53-74 | a complete counter means that every server has answered |
| `RequestQueue.Server.RequestHandler` | comm/fserver/csrc/public.hpp:47-64 | the request is queued for its worker and remembered under its handler; in the 64-bit mask bit i is set iff queue i is non-empty |
| `RequestQueue.Server.Look` | comm/fserver/csrc/public.hpp:66-76 | the mask equals the full mask exactly when no queue is empty |
| `RequestQueue.Server.GetBatch` | comm/fserver/csrc/public.hpp:78-89 | the k-th result holds the k-th request of every worker; no empty queue is popped |
| `RequestQueue.Server.PopFronts` | comm/fserver/csrc/public.hpp:79-88 | takes the front of each queue and clears the bits of the queues that become empty |
| `RequestQueue.Server.Respond` | comm/fserver/csrc/public.hpp:91-106 | answers the request the handler stands for, keys paired with tensors, when the sizes agree |
| `RequestQueue.Server.Run` | comm/fserver/csrc/public.hpp:47-89 | the above holds in every interleaving of the two threads |
| `RequestQueue.ArrivedIsLogged` | comm/fserver/csrc/public.hpp:47-64 | each queued batch is from its worker and holds, key by key, what the request with its handler has pushed |
| `WorkerMask.FetchOr` | comm/fserver/csrc/public.hpp:61-61 | the int shift, widened with its sign, sets the rank's bit and no other |
| `WorkerMask.AndNot` | comm/fserver/csrc/public.hpp:85-85 | the complement clears the rank's bit exactly when its queue is empty |
| `WorkerMask.MaskFor` | comm/fserver/csrc/public.hpp:181-181 | the full mask has exactly the bits of the workers |
| `WorkerMask.SameMarks` | comm/fserver/csrc/public.hpp:69-69 | masks with the same bits are the same word |
| `WorkerMask.OwnBitOnly` | comm/fserver/csrc/public.hpp:61-61 | a shift sets its own bit alone exactly for ranks below 31; at 31 the sign sets all higher bits |
| `WorkerMask.MaskLimit` | comm/fserver/csrc/public.hpp:181-183 | every rank has its own bit and the full mask does not overflow an int exactly for at most 30 workers |
| `Barrier.NoEarlyExit` | comm/src/postoffice.cc:245-306 | when as many requests are waited for as there are members, a node has left at most as many barriers as any member has entered, in every run |
| `Barrier.NobodyForgotten` | comm/src/van.cc:377-455 | once all messages are delivered, a node that cannot leave waits for a member that has not entered this round |
| `Barrier.RoundIsFull` | comm/src/van.cc:410-452 | the request that completes the count completes the group: every member has asked (pigeonhole) |
| `Barrier.ExpectedIsMembers` | comm/src/van.cc:422-448 | a barrier never lets anybody out early and lets somebody out at all exactly when the number of requests waited for is the number of members |
| `BarrierScheduler.Scheduler.ProcessInstanceBarrierCommand` | comm/src/van.cc:377-407 | the counter answers every member when the last request comes in |
| `BarrierScheduler.Scheduler.ProcessBarrierCommand` | comm/src/van.cc:410-455 | the request list answers exactly the requesters when it is complete |
| `BarrierScheduler.ServeInstance` | comm/src/van.cc:377-407 | an instance barrier command takes a matching protocol state to the state after the request step |
| `BarrierScheduler.ServeGroup` | comm/src/van.cc:410-455 | a group barrier command does so, too, with instances divided by group size as the expected number |
| `BarrierScheduler.ExpectedPerGroup` | comm/src/van.cc:422-434 | the expected number is one request per instance group, and one from the scheduler |
| `BarrierScheduler.PerInstanceIsEarly` | comm/src/van.cc:422-434 | when every instance takes part in a group barrier of larger groups, somebody can leave early |
| `Resender.KeyRoundTrip` | comm/src/resender.h:96-106 | in range, a key is made for every timestamp but 32767, and all fields can be read back from it |
| `Resender.KeysSeparate` | comm/src/resender.h:96-106 | in range, two messages share a key exactly when their fields agree |
| `Resender.KeysEqual` | comm/src/resender.h:96-106 | for all applications and nodes and timestamps below 2^31: two identities share a key exactly when they agree once app ids are cut to 16 bits and node ids to 8, or agree in request bit and timestamp from 2^30 on |
| `Resender.KeyIdentifies` | comm/src/resender.h:96-106 | among identities with 16-bit app ids and 8-bit node ids, no other has the key exactly when the timestamp is below 2^30 |
| `Resender.NodesSeparate` | comm/src/resender.h:96-106 | keys tell all messages of a set of nodes apart, below timestamp 2^30, exactly when no two node ids agree in their lowest 8 bits |
| `Resender.WorkersCollide` | comm/include/ps/internal/postoffice.h:181-181 | worker 128 (id 265) has the keys of worker 0 (id 9), worker 124 (id 257) those of the scheduler (id 1) |
| `Resender.RejectedTimestamp` | comm/src/resender.h:36-39 | both sides take a message that is not an ack exactly when its timestamp is not 32767 |
| `Resender.Resender.AddOutgoing` | comm/src/resender.h:36-48 | buffers a message unless it is an ack or buffered already; fails exactly at timestamp 32767 on a message that is not an ack |
| `Resender.Resender.AddIncomming` | comm/src/resender.h:54-84 | an ack erases its key; anything else is recorded, acked, and dropped exactly when seen before; fails exactly at timestamp 32767 |
| `Resender.Resender.Monitoring` | comm/src/resender.h:112-133 | exactly the expired messages are resent, once each, and their retries counted; fails exactly when one is at the limit |
| `Resender.ResentLate` | comm/src/resender.h:112-129 | the j-th resend comes more than j timeouts after the message was buffered |
| `Resender.ResentInTime` | comm/src/resender.h:112-129 | passes that are each another timeout late resend the message every time |
| `ResenderRuns.PassedAtMostOnce` | comm/src/van.cc:688-735 | in every run each message is passed up at most once, as it was sent and where it was sent, and never one with timestamp 32767 |
| `ResenderRuns.AckedIsReceived` | comm/src/resender.h:58-64 | whenever an ack empties a buffer entry, the receiver has recorded that very message, unless another one conflicts with it |
| `ResenderRuns.NeverForgotten` | comm/src/resender.h:36-133 | in every run a sent message has been passed up, is in the receiver's hands, or is still held by its sender, unless another message with its key was sent from the same node or to the same node; at timestamp 32767 it is never received and its sender ends |
| `ResenderRuns.RetriesBounded` | comm/src/resender.h:119-126 | in every run a buffered message has been resent less often than the limit |
| `ResenderRuns.FailsExactly` | comm/src/van.cc:688-735 | buffering or receiving a message ends the process exactly at timestamp 32767 |
| `ResenderRuns.AckIsTrue` | comm/src/resender.h:58-64 | an ack that reaches the sender of a message with its key comes from that message's receiver, which has recorded the key, unless another message conflicts with it |
| `ResenderLoss.LossyRun` | comm/src/resender.h:54-84 | of two messages with one key from one node or to one node, the second is lost in some run |
| `ResenderLoss.LostIff` | comm/src/resender.h:36-133 | a message of any traffic can be lost exactly when another message of the traffic has its key and its sender or receiver |
| `ResenderLoss.ReliableIff` | comm/src/resender.h:36-133 | among messages with different identities, 16-bit app ids and timestamps below 2^30, none can be lost exactly when no two node ids agree in their lowest 8 bits |
| `UcxReorder.SidCounter.NextSid` | comm/src/ucx_van.h:1063-1071 | the k-th request gets id k modulo the count |
| `UcxReorder.Drain` | comm/src/ucx_van.h:1282-1296 | releases the consecutive run of buffered requests, across wrap-around |
| `UcxReorder.Reorderer.Receive` | comm/src/ucx_van.h:1261-1301 | released requests are a prefix of the sender's order; buffered ones are strictly ahead |
| `UcxReorder.Reorder` | comm/src/ucx_van.h:1261-1301 | for every arrival order: per sender a prefix is released, exactly the other arrived requests are buffered, and all other messages are passed on once, in order of arrival |
| `PackMeta.Pack` | comm/src/van.cc:767-873 | every write lies within the computed length and none overlap, and they fill it unless nodes are left out; header, body, types and nodes as specified |
| `PackMeta.Unpack` | comm/src/van.cc:875-952 | reads the record that header and tail stand for |
| `PackMeta.RoundTrip` | comm/src/van.cc:767-952 | unpacking a packed record gives it back exactly when it is well formed |
| `PackMeta.NodeRoundTrip` | comm/src/van.cc:826-851 | a node comes back exactly when its hostname has no NUL |
| `TrackerRing.NeighborsSymmetric` | comm/tracker/tracker.py:156-165 | adjacency in the tree is symmetric |
| `TrackerRing.GetTree` | comm/tracker/tracker.py:167-173 | neighbours and parents of every node |
| `TrackerRing.RingIsPermutation` | comm/tracker/tracker.py:175-192 | the shared ring visits 0..n-1 exactly once, whatever order sets are iterated in |
| `TrackerRing.RingEnds` | comm/tracker/tracker.py:175-192 | the list of a node with children starts with the node and its first child, and ends with its last child |
| `TrackerRing.BesideFirstChild` | comm/tracker/tracker.py:175-192 | every node with children is beside the first of them in the ring list |
| `TrackerRing.GetRing` | comm/tracker/tracker.py:194-207 | predecessor and successor of every position, cyclically |
| `TrackerRing.RingIsCycle` | comm/tracker/tracker.py:194-207 | prev and next are inverse |
| `TrackerRing.NumberRing` | comm/tracker/tracker.py:216-220 | the new numbers follow the ring from 0 |
| `TrackerRing.RelabelRing` | comm/tracker/tracker.py:225-226 | the relabelled ring is i -> i+1 mod n |
| `TrackerRing.RelabelTree` | comm/tracker/tracker.py:227-233 | tree and parents are carried over by the same bijection; the root keeps -1 |
| `TrackerRing.GetLinkMap` | comm/tracker/tracker.py:209-234 | all of the above together; with more than one node both ring neighbours of rank 0 are its tree neighbours, and every node with children has the first of them as a ring neighbour |
| `TrackerRing.LinksAreSound` | comm/tracker/tracker.py:209-234 | relabelled adjacency is symmetric, parents are neighbours, the root is the only one without |
| `TrackerAccept.Tracker.CountDown` | comm/tracker/tracker.py:116-123 | each dialled waiter counts down and leaves at zero |
| `TrackerAccept.Tracker.AssignRank` | comm/tracker/tracker.py:70-125 | after each assignment a node waits for exactly its unassigned neighbours and is listed iff there are some |
| `TrackerAccept.AssignAll` | comm/tracker/tracker.py:282-294 | after all assignments nobody waits and each link was dialled once, by its later end |
| `TrackerAccept.FreshStart` | comm/tracker/tracker.py:241-302 | the same from the computed link map, for every n and every order: two ranks are linked exactly when they are ring neighbours or parent and child in the tree |
| `TrackerAccept.LinkMapSymmetric` | comm/tracker/tracker.py:72-92 | the link sets sent to the nodes are symmetric |
| `KvSlicing.GetServerKeyRanges` | comm/src/postoffice.cc:280-290 | non-empty contiguous ranges from 0, within the key space |
| `KvSlicing.DefaultSlicer` | comm/include/ps/kv_app.h:630-684 | succeeds exactly on fitting input with keys below the end; each slice has exactly the keys of its range, each with the length and the values that it has in the list |
| `KvSlicing.Positions` | comm/include/ps/kv_app.h:635-653 | the cuts are the lower bounds of the range ends |
| `KvSlicing.CutValues` | comm/include/ps/kv_app.h:657-683 | fixed or per-key lengths, each slice gets its keys' own values |
| `KvSlicing.SegmentIsPart` | comm/include/ps/kv_app.h:655-683 | a slice is exact by itself: its lengths add up to its values (or all keys have the same number), and each key has the values it has in the whole list |
| `KvSlicing.SliceOwnsItsRange` | comm/include/ps/kv_app.h:630-684 | a key is in a server's slice exactly when it is in its range |
| `KvGather.SendSlices` | comm/include/ps/kv_app.h:687-748 | empty slices are skipped and counted, the others are sent |
| `KvGather.Gather` | comm/include/ps/kv_app.h:803-846 | fails exactly when a slice or its lengths do not fit, keys are missing or a buffer is too small for the joined values; else joins the slices in some order by first key |
| `KvGather.CheckMeans` | comm/include/ps/kv_app.h:805-811 | a slice passes exactly when it has as many keys as the list has from its first to its last, and as many lengths when they are asked for |
| `KvGather.GatherRestores` | comm/include/ps/kv_app.h:805-846 | in any order of arrival the checks pass and keys, values and lengths are restored |
| `KvGather.PullRoundTrip` | comm/include/ps/kv_app.h:630-846 | slicing, sending, shuffling and gathering give the original values and lengths |
| `KvGather.RestoresIff` | comm/include/ps/kv_app.h:803-846 | sorted slices with the right number of keys give the list exactly when each holds keys of the list, one after the other, and no key has come twice |
| `KvGather.CheckedTwice` | comm/include/ps/kv_app.h:803-813 | the checks do not see a slice that comes twice in place of another |
| `KvGather.CheckedStrange` | comm/include/ps/kv_app.h:803-813 | the checks do not see a slice of other keys that enclose as many keys of the list |
| `Striping.Stripe` | comm/src/rdma_transport.h:616-655 | adjacent chunks covering exactly the payload, for every number of queue pairs |
| `Striping.InOneChunk` | comm/src/rdma_transport.h:705-746 | every byte is in exactly one chunk |
| `Striping.SlaveRecognised` | comm/src/rdma_transport.h:637-642 | a slave's immediate is always recognised |
| `Striping.PoolSizeLimit` | comm/src/rdma_van.h:815-826 | pool indices are never taken for slave immediates exactly when the pool has at most 32768 entries |
| `Striping.AddressPool.StoreAddress` | comm/src/van_common.h:106-118 | stores at a free index, or fails exactly when the pool is full |
| `Striping.AddressPool.GetAddressAndRelease` | comm/src/van_common.h:91-98 | returns what is stored and frees the index |
| `StripedLink.Link.Send` | comm/src/rdma_transport.h:616-655 | posts both parts, numbered in the order of the second queue pair |
| `StripedLink.Link.Complete0` | comm/src/rdma_van.h:808-822 | the first part lands, or the receiver is notified |
| `StripedLink.Link.Complete1` | comm/src/rdma_van.h:823-826 | the second part lands and is counted |
| `StripedLink.Link.RecvMsg` | comm/src/rdma_van.h:432-448 | hands up the next message exactly when its slave chunks are counted |
| `StripedLink.Link.Run` | comm/src/rdma_van.h:432-448 | in every run what is handed up is what was sent, complete and in order |
| `Allocation.HardwareOrder` | scheduler/cli/_autoscaling_stability.py:355-358 | all hardware, most used by the seed first, ties by name |
| `Allocation.FillWorker` | scheduler/cli/_autoscaling_stability.py:354-369 | as many GPUs as wanted and available, preferring earlier hardware |
| `Allocation.FillRow` | scheduler/cli/_autoscaling_stability.py:354-369 | hardware is taken only when all that the seed prefers to it is used up |
| `Allocation.RebuildAllocation` | scheduler/cli/_autoscaling_stability.py:347-370 | no hardware is overused; targets are met exactly when some matrix that fits meets them; each worker type takes hardware in the order of its seed |
| `LocalSearch.WorkerRange` | scheduler/cli/_autoscaling_stability.py:303-322 | exactly the permitted sizes, in order |
| `LocalSearch.AllowsMeans` | scheduler/cli/_autoscaling_stability.py:309-321 | a size is permitted exactly when it lies between two sizes of anchors and, for attn and ffn, is one itself or a positive choice |
| `LocalSearch.LocalAllocations` | scheduler/cli/_autoscaling_stability.py:251-301 | new, distinct, fitting matrices that meet every target exactly, nearest first, each built from the first of the anchors nearest to it |
| `LocalSearch.ComesFirst` | scheduler/cli/_autoscaling_stability.py:266-279 | the nearer target comes first, then the smaller one, without ties |
| `LocalSearch.ClosestAnchor` | scheduler/cli/_autoscaling_stability.py:285-291 | the first of the nearest anchors |
| `Stability.Minimum` | scheduler/cli/_autoscaling_stability.py:192-206 | no plan has a smaller key |
| `Stability.RankMeans` | scheduler/cli/_autoscaling_stability.py:217-249 | ranks compare cost and GPUs (in this order with cost awareness, else the other way round), then set-up cost, distance and throughput |
| `Stability.ThroughputMeans` | scheduler/cli/_autoscaling_stability.py:194-205 | the capacity-limited key compares throughput, then GPUs, then cost |
| `Stability.DistanceZero` | scheduler/cli/_autoscaling_stability.py:222-230 | allocations are at distance 0 exactly when every worker type has as many GPUs of each hardware |
| `Stability.StabilityValidator.Evaluate` | scheduler/cli/_autoscaling_stability.py:152-175 | a plan for the allocation, or none when the budget is exhausted; at most max_candidates new plans, none begun past the timeout |
| `Stability.StabilityValidator.FollowProposal` | scheduler/cli/_autoscaling_stability.py:98-122 | each plan on the path is for what the one before scales to; the path ends in a fixed point, in a repetition, with the rounds or with the budget; the anchors are the current allocation, the proposal and all moves |
| `Stability.StabilityValidator.TryNeighbours` | scheduler/cli/_autoscaling_stability.py:135-140 | unless the budget is exhausted, every target size between the anchors has been evaluated |
| `Stability.StabilityValidator.SelectFallback` | scheduler/cli/_autoscaling_stability.py:177-206 | safe if possible and then of least rank, stable if possible, else of greatest throughput |
| `Stability.StabilityValidator.Run` | scheduler/cli/_autoscaling_stability.py:81-150 | allowed; safe iff an allowed safe plan was evaluated; a stable safe proposal is kept; otherwise the safe fixed point of the path, or every target between the anchors explored within budget and no better plan of its kind by cost, GPUs, set-up, distance and throughput; safe or no slower than the current plan unless a slower unsafe proposal has the current allocation |
| `Stability.NoBudget` | scheduler/cli/_autoscaling_stability.py:85-87 | without budget, the choice is safe or no slower than the current plan exactly when the proposal is for another allocation, no slower, or safe |
| `LiveAutoscaler.PlanExisting` | scheduler/cli/run_hexgen3_live_autoscaler.py:768-810 | the current plan when it needs no scaling, the proposal when it keeps the allocation or is safe and stable, else what the search for this workload chooses: within the safe utilization or no slower, and without leave to scale in no smaller worker type |
| `LiveAutoscaler.GuardMeans` | scheduler/cli/run_hexgen3_live_autoscaler.py:813-832 | scaling in is allowed exactly when no more requests wait than the threshold |
| `LiveAutoscaler.SafeMeans` | scheduler/cli/_autoscaling_stability.py:69-74 | safe means that the arrivals stay within the safe utilization of the throughput |
| `LiveAutoscaler.SignatureMeans` | scheduler/cli/run_hexgen3_live_autoscaler.py:640-660 | two scale decisions have one signature exactly when both grow, or neither does and both choose the same deployment |
| `LiveAutoscaler.LiveAutoscaler.PlanOneStep` | scheduler/cli/run_hexgen3_live_autoscaler.py:684-727 | without a previous plan an initial window for the initial allocation; else a window that fits the previous plan and shrinks no worker type during a backlog |
| `LiveAutoscaler.LiveAutoscaler.Confirm` | scheduler/cli/run_hexgen3_live_autoscaler.py:325-365 | counts the windows with one signature |
| `LiveAutoscaler.ConfirmedMeans` | scheduler/cli/run_hexgen3_live_autoscaler.py:305-365 | a scale change is confirmed exactly below the limit and when enough windows since the last change agree |
| `LiveAutoscaler.LiveAutoscaler.Gate` | scheduler/cli/run_hexgen3_live_autoscaler.py:305-365 | a scale change goes ahead exactly when it is confirmed |
| `LiveAutoscaler.LiveAutoscaler.Apply` | scheduler/cli/run_hexgen3_live_autoscaler.py:366-411 | drains, replaces, waits for readiness and serves, as specified; it stays draining on failure |
| `LiveAutoscaler.RoundKeeps` | scheduler/cli/run_hexgen3_live_autoscaler.py:225-421 | every round keeps the history and, unless the process ends, what the loop believes |
| `LiveAutoscaler.RoundMeans` | scheduler/cli/run_hexgen3_live_autoscaler.py:305-415 | the processes are replaced exactly for the initial launch, or for a scale change below the limit that enough windows agree on, once drained; the process ends exactly when the replacement fails or does not become ready |
| `LiveAutoscaler.LiveAutoscaler.Round` | scheduler/cli/run_hexgen3_live_autoscaler.py:225-421 | plans a window exactly when there is a usable workload and the cooldown is over; keeps the history and the tracked allocation |
| `LiveAutoscaler.LiveAutoscaler.Loop` | scheduler/cli/run_hexgen3_live_autoscaler.py:204-423 | in every run: the first replacement is the initial launch of the initial allocation and every later one a scale change from the one before; replaced only while draining, within the limit, after agreeing windows; no window planned during a cooldown; the tracked allocation is the last applied |

## Left out

- RDMA verbs, UCX, ZMQ, CUDA, sockets, processes and HTTP: only "posted", "arrived", "drained" and "ready" appear, as steps or inputs.
- The hash map's `shrink_to_fit`, public `rehash`, one-argument `reserve`, range erase, copy and move, and the `EMH_*` options: they do not keep the load relation of the main path.
- Tables that would need 2^31 buckets or more: growing operations require fewer.
- AFTensorMeta is a value in the model; that the reorder buffer and the batch table share pointers is not captured.
- AfBatch.SendBatch: request shapes that emit no END are characterised by FlagsOfRequest and excluded from the runs.
- AfWorker.AFTensorWorker.Wait: one look at the counters instead of the spin loop; the timeout is not modelled.
- When KVWorker::Process fires callbacks: the gathering is a function of the received slices.
- Barriers of several customers, shared nodes, and node sorting and recovery in van.cc.
- DoBarrier's early return for groups of one node: it waits for nobody.
- Resender.Resender.Monitoring: the clock is an input; a TERMINATE message appears in AddIncomming only, since it never crosses the network.
- ResenderRuns.NeverForgotten: a process that fails a check or gives up after too many retries makes no further step, and what it held stays in its last state; that a resent message eventually arrives is not claimed.
- UcxReorder.Reorder: the value of MAX_SID_COUNT is a parameter, since 1 << 31 does not fit an int.
- PackMeta.Pack: cells by offset instead of raw bytes; trace fields, sender, receiver and queue-pair counters, which the transport sets, and sizes beyond 2^31 are not modelled.
- TrackerAccept.Tracker.AssignRank: rounds after connection errors, recovery and ranks remembered by job id.
- StripedLink.Link.Run: two queue pairs, as the receiver counts one slave only; every message has its own receive buffer.
- RequestQueue.Server.GetBatch: at most 30 workers, the limit of the masks.
- AfAnswers.AnsweredOnce: the application responds to each batch it was handed at most once; events and device memory are not modelled.
- AfWorker.AFTensorWorker.ZBatchPushPull: requires that the first timestamp is not remembered, as emplace_unique does; it can only be remembered at 0, after a request without pushes and shares.
- Stability.StabilityValidator.Run: reals instead of floats; the framework's evaluation and scaling are arbitrary functions, of which the first keeps the allocation it is given.
- LiveAutoscaler.LiveAutoscaler.Loop: the two looks at the clock in the cooldown test are one; reading metrics, estimating the workload and writing the plan are inputs or omitted.
- fabric_van, tp_van, multi_van, zmq_van, network utilities, backends, logging, benchmarks, the simulator and trace replay: they would add easier members only.
