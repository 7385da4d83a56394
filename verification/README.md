# Verified model of the Raft key-value store

This project models the hard parts of a C++ key-value store: its Raft node and cluster
(`raft/raftCore/raft.cpp`), the skip list that is the store's index (`skipList/include/skipList.h`), the apply
loop between the two (`raft/raftCore/kvServer.cpp`), and three pieces of the network library underneath
(`sylar/bytearray.cc`, `sylar/timer.cc`, `sylar/iomanager.cc`). `dafny verify dfyconfig.toml` checks all of
it.

## How it is laid out

**Raft.** `RaftNode` has one function per locked region of `raft.cpp`, from the old to the new state of a
node; `RaftHandlers` says what each decides and does, from the fields alone; `RaftServer` has the same regions
as methods of a class that update its fields in place, each proved to do what the function says. `RaftCluster`
puts n nodes and a network that may lose, delay, reorder and repeat messages into a state machine whose runs
(`IsRun`) everything else talks about. Only the sender is restricted: it blocks on a call, so it handles at
most one reply to it.

The proofs keep a history beside the run. `RaftElection` records ballots and shows that a term has one leader;
`RaftEvidence` records who acknowledged which heartbeat round and shows that a commit never outruns its
evidence; `RaftMarks` keeps the high-water marks of replication; `RaftLedger` records which command an index
and term stand for. `RaftBooks` to `RaftRuns` record leaders' logs and acknowledgements and keep the invariant
behind Raft's log safety: an entry is *live* while a majority may still acknowledge it, and every later leader
starts with every live entry. `RaftTheorems` draws the conclusions for whole runs. `RaftIndex` has the bounds
that hold for the code as written, with snapshots; `RaftBacktrack` follows nextIndex and says when
doHeartBeat's assertions hold; `Replicas` joins Raft's output to the store. `RaftPlays` has the moves for
acting out a run, used by `RaftCounterexample` and `RaftStaleLeader`.

**As written and truncating.** The comment at `raft.cpp:79` wants a conflict to cut the log; the loop at
`raft.cpp:88-119` overwrites the one conflicting entry and keeps what is behind it. Both merges are in the
model (`Merge`). Election safety, entry uniqueness, commit evidence and the apply stream are proved for both,
the index bounds for the code as written. Log matching, leader completeness and state machine safety fail for
the code as written: `RaftCounterexample` has a run of five nodes that breaks all three. They are proved for
every run without snapshots whose merges are *harmless*, that is, meet no conflict or reach the end of the
receiver's log (`RaftMerge`). Every run of the truncating merge is one, and for log matching the condition is
exact.

**Other places where the code is not what its comments say.** Below the snapshot index (`raft.cpp:68-78`) a
`return` is commented out and the process would end in an assertion; the model rejects and returns. That
answer can send nextIndex past a leader's log, so that doHeartBeat's assertion fails at its next round:
`RaftStaleLeader` has such a run and `RaftBacktrack` the exact condition. Where no message is taken from below
a snapshot, as in the source, whose process ends there, it never happens. leaderUpdateCommitIndex restarts
from the snapshot index (`raft.cpp:672`), so the commit index can drop; `RaftIndex` says exactly when. Append
overwrites (`kvServer.cpp:29`).

**Skip list.** `SkipLists` is the heap structure: nodes with forward arrays, rewired in place, and a ghost
sequence of the nodes in key order. The level a node draws is a parameter.

**ByteArray.** `Chunks` has the arithmetic of chunks laid end to end, `ByteArrays` the linked list with its
cursor, `Varints` and `VarintIO` the integer codecs. The chunk size is positive, and a read of nothing at the
very end of the last chunk, which would follow a null cursor (`bytearray.cc:385`), is excluded.

**Timers, events, store.** `Timers` is the ordered timer set with its wake-up flag; `IOManagers` accounts for
epoll registrations; `KvStore` and `KvServers` are the apply loop, as functions and as a class over the skip
list.

## Model

| member | source | states |
|---|---|---|
| RaftElection.ElectionSafety | raft/raftCore/raft.cpp:914-995 | in any run at most one node is ever Leader in a term, at any two times |
| RaftElection.NeverElectedTwice | raft/raftCore/raft.cpp:953-963 | a counted majority finds its node not leading, in the term the votes were cast for, which nobody has led before, so the "elected twice" assertion cannot fire |
| RaftElection.WinIsFirst | raft/raftCore/raft.cpp:951-955 | a vote that completes the shared counter is cast in the node's current term and no majority was counted in that term before |
| RaftEvidence.CommitNeverOutrunsEvidence | raft/raftCore/raft.cpp:1067-1112 | whenever a step leaves a leader with a higher commit index, that index holds an entry of its term and a strict majority acknowledged its log of that term at least up to it |
| RaftMarks.CommitPassesByMarks | raft/raftCore/raft.cpp:670-704 | whenever a leader's commit index rises, by counter or scan, it passes leaderUpdateCommitIndex's own test on the high-water marks of the replies handled in that term |
| RaftEvidence.FiresOnce | raft/raftCore/raft.cpp:1067-1085 | over any run, no two answers both bring the counter of one heartbeat round to a majority |
| RaftEvidence.FiresFresh | raft/raftCore/raft.cpp:1067-1085 | a counter that fires has not fired before and has counted a strict majority of distinct nodes |
| RaftEvidence.CounterCommit | raft/raftCore/raft.cpp:1080-1106 | the counter raises the commit index only to the end of its round's messages, where the leader's own log has an entry of its term |
| RaftEvidence.ScanCommitted | raft/raftCore/raft.cpp:670-704 | leaderUpdateCommitIndex sets the commit index above the snapshot only to an own-term entry that a majority acknowledged |
| RaftLedger.EntryUniqueness | raft/raftCore/raft.cpp:1155-1159 | index and term determine the entry, across all nodes and all times, with either merge |
| RaftLedger.DeliveriesConsistent | raft/raftCore/raft.cpp:103-112 | no message that can arrive contradicts an entry of the same index and term, so the assertion on differing commands cannot fire |
| RaftMerge.MergesAgree | raft/raftCore/raft.cpp:79-119 | the merge as written equals the truncating one exactly when the message meets no conflict or reaches the end of the log |
| RaftMerge.HarmlessIsTruncating | raft/raftCore/raft.cpp:79-119 | a run of the code as written whose merges are all harmless is a run of the truncating algorithm |
| RaftNode.MergeAsWritten | raft/raftCore/raft.cpp:88-119 | which slots keep their entry and which take the message's, and how long the log gets |
| RaftNode.ScanCommit | raft/raftCore/raft.cpp:670-704 | the highest committable index, or the snapshot index when there is none |
| RaftNode.Emission | raft/raftCore/raft.cpp:444-460 | one message per index after the last applied one up to the commit index, with that index's command |
| RaftNode.BacktrackFinds | raft/raftCore/raft.cpp:157-168 | the search stops at the first slot of the stretch of one term that ends at prevLogIndex, or stays at prevLogIndex when that stretch reaches down to the snapshot |
| RaftHandlers.Stands | raft/raftCore/raft.cpp:237-304 | a non-leader enters a new term, votes for itself and asks every other peer, naming its last entry; a node without peers leads at once |
| RaftHandlers.VoteDecision | raft/raftCore/raft.cpp:736-834 | a vote is granted if and only if the term is not earlier, the candidate's last term and index are at least the voter's, and the voter is free for it; and what becomes of term, vote and status |
| RaftHandlers.VoteAnswered | raft/raftCore/raft.cpp:943-992 | a later term unseats the node, an earlier one or a refusal changes nothing, a vote is counted, and past one half of the peers the node leads |
| RaftHandlers.HeartBeats | raft/raftCore/raft.cpp:306-383 | which peers get a message in a round, and everything that is in it |
| RaftHandlers.AppendDecision | raft/raftCore/raft.cpp:10-181 | a message is accepted if and only if its term is not earlier and the node has its previous entry; and what becomes of term, vote, status and commit index |
| RaftHandlers.RejectionSays | raft/raftCore/raft.cpp:26-172 | where each kind of rejection sends the leader, a mismatch to the first slot of the conflicting term |
| RaftHandlers.AcceptedEntries | raft/raftCore/raft.cpp:88-119 | slot by slot, what an accepted message leaves in the log |
| RaftHandlers.TruncatedEntries | raft/raftCore/raft.cpp:79-80 | the truncating merge keeps the log if nothing conflicts and otherwise has the message from its first conflict on and nothing behind |
| RaftHandlers.AppendAnswered | raft/raftCore/raft.cpp:1024-1116 | what a later term, a mismatch and a success each do to a leader, and when the round commits |
| RaftHandlers.Starts | raft/raftCore/raft.cpp:1139-1180 | a leader appends the command and its commit index becomes the last own-term index that more than half of the peers hold |
| RaftHandlers.Applies | raft/raftCore/raft.cpp:438-461 | on a node of any status, everything committed and unapplied is handed out in order, once, and nothing else |
| RaftHandlers.Compacts | raft/raftCore/raft.cpp:1293-1335 | a snapshot is taken at a committed index with that entry's term, and every later entry stays |
| RaftHandlers.Installs | raft/raftCore/raft.cpp:504-575 | a later snapshot replaces everything up to its index, with its term; an outdated one changes neither log nor snapshot |
| RaftHandlers.SnapshotAnswered | raft/raftCore/raft.cpp:648-667 | the leader takes the peer to be where the snapshot ends, or steps down before a later term |
| RaftCluster.AnythingMayArrive | raft/raftCore/raft.cpp:237-304 | in every reachable state any node may stand or take a command, any message ever sent may arrive, again too, and any answer still waited for may be handled |
| RaftTheorems.LogMatching | raft/raftCore/raft.cpp:79-119 | in a safe run, entries of any two logs at any two times that share slot and term have identical logs before them |
| RaftTheorems.LogMatchingExactly | raft/raftCore/raft.cpp:79-119 | without snapshots, any two logs at any two times match, a node and its own past included, if and only if all merges are harmless |
| RaftTheorems.LeaderCompleteness | raft/raftCore/raft.cpp:826-834 | whatever any node has committed is in the log of every leader of a later term, even one that won before the commit |
| RaftTheorems.StateMachineSafety | raft/raftCore/raft.cpp:438-461 | no two nodes ever hand out different commands for the same index |
| RaftSafety.VictorHasLive | raft/raftCore/raft.cpp:779-834 | a candidate that wins already has every entry that is still live, by the votes' up-to-date check and overlapping majorities |
| RaftSafety.UpToDateHas | raft/raftCore/raft.cpp:826-834 | a candidate whose log is up to date with a voter that keeps a live entry has that entry |
| RaftSafety.AcceptedLog | raft/raftCore/raft.cpp:79-119 | after an accepted message the follower's log equals the leader's up to the message's end, and keeps every prefix it shared with it |
| RaftCommits.LeaderHasCommitted | raft/raftCore/raft.cpp:694 | a leader of the same or a later term has every committed entry, which rests on committing own-term entries only |
| RaftCommits.CommitAdopted | raft/raftCore/raft.cpp:132-136 | the minimum a follower takes is the leader's commit index, and what it commits is chosen |
| RaftRuns.StepKeepsBooks | raft/raftCore/raft.cpp:237-1117 | every step of the truncating, snapshot-free cluster keeps the log safety invariant |
| RaftCounterexample.AsWrittenIsUnsafe | raft/raftCore/raft.cpp:88-119 | a run of five nodes, as written and without snapshots, that ends with two logs that do not match, a leader without a committed entry, and two commands applied at one index |
| RaftIndex.IndexBounds | raft/raftCore/raft.cpp:836-912 | in every run as written, with snapshots: slots carry consecutive indices, snapshot index <= commit and apply index <= last index, and the last index never decreases |
| RaftIndex.ApplyNeverBlocked | raft/raftCore/raft.cpp:441-442 | the bounds assertions of getApplyLogs and Snapshot hold in every reachable state |
| RaftIndex.FollowerCommit | raft/raftCore/raft.cpp:132-136 | over any run, an accepted message never claims more committed than it covers; the follower's commit index becomes the higher of its own and the leader's, and never rises past prevLogIndex plus the entries received |
| RaftIndex.CommitDropsExactly | raft/raftCore/raft.cpp:670-704 | Start lowers the commit index if and only if nothing from the old one up is committable |
| RaftIndex.FirstStartDrops | raft/raftCore/raft.cpp:672 | a fresh leader of more than one node falls back to its snapshot index at its first Start |
| RaftIndex.ApplyStream | raft/raftCore/raft.cpp:438-461 | emitted indices strictly increase over the whole run, are never repeated, and leave out only what a snapshot covers |
| RaftIndex.NothingUnapplied | raft/raftCore/raft.cpp:438-461 | over any run, after getApplyLogs on a node of any status every committed index that no snapshot covers has been emitted |
| RaftBacktrack.RejectionRange | raft/raftCore/raft.cpp:157-172 | a mismatch sends nextIndex to between 1 and the prevLogIndex just sent, past which the follower has only the conflicting term |
| RaftBacktrack.BacktrackingEnds | raft/raftCore/raft.cpp:1050-1064 | with one call outstanding, fewer rejections than the initial nextIndex lead to acceptance or to a snapshot |
| RaftBacktrack.BacktrackingMatches | raft/raftCore/raft.cpp:1050-1078 | without snapshots the follower accepts, then has the leader's terms from the match on, and the leader knows it |
| RaftBacktrack.HeartBeatNeverBlocked | raft/raftCore/raft.cpp:328-372 | in every run, snapshots included, where no message starts below its receiver's snapshot, doHeartBeat's assertions hold and nextIndex and matchIndex stay in range |
| RaftBacktrack.NeverBelowWithoutSnapshots | raft/raftCore/raft.cpp:328-372 | a run without snapshots is such a run |
| RaftBacktrack.HeartBeatsExactly | raft/raftCore/raft.cpp:328-372 | over any run, doHeartBeat's assertions hold in every state if and only if no answer sends nextIndex past the leader's log |
| RaftBacktrack.BelowSnapshotBlocks | raft/raftCore/raft.cpp:68-78 | the answer to a message from below the receiver's snapshot blocks the leader if and only if that snapshot reaches past the leader's log |
| RaftStaleLeader.StaleLeaderBlocks | raft/raftCore/raft.cpp:68-78 | a run of three nodes, as written and with one snapshot, in which that happens |
| RaftStaleLeader.SnapshotCatchesUp | raft/raftCore/raft.cpp:625-668 | a run in which a follower installs the leader's snapshot and the leader learns how far it is |
| RaftServer.Raft.constructor | raft/raftCore/raft.cpp:1193-1220 | a new node is the initial state of the model |
| RaftServer.Raft.DoElection | raft/raftCore/raft.cpp:237-304 | the object takes the model's election step and asks exactly the other peers |
| RaftServer.Raft.RequestVote | raft/raftCore/raft.cpp:736-824 | state and reply of the model's vote step, which RaftHandlers.VoteDecision describes |
| RaftServer.Raft.HandleVoteReply | raft/raftCore/raft.cpp:943-992 | state of the model's vote answer step |
| RaftServer.Raft.BecomeLeader | raft/raftCore/raft.cpp:969-979 | the loop sets every nextIndex and matchIndex |
| RaftServer.Raft.AppendEntries | raft/raftCore/raft.cpp:10-181 | state and reply of the model's append step, which RaftHandlers.AppendDecision, RejectionSays and AcceptedEntries describe |
| RaftServer.Raft.MergeEntries | raft/raftCore/raft.cpp:88-119 | the in-place loop leaves the merge as written |
| RaftServer.Raft.FindConflict | raft/raftCore/raft.cpp:157-168 | the backwards search finds the first slot of the stretch of the conflicting term, and prev only if that reaches down to the snapshot |
| RaftServer.Raft.DoHeartBeat | raft/raftCore/raft.cpp:306-383 | the model's round and exactly its messages, each shipping to the end of the log |
| RaftServer.Raft.HandleAppendReply | raft/raftCore/raft.cpp:1024-1116 | state of the model's append answer step |
| RaftServer.Raft.CountMatching | raft/raftCore/raft.cpp:677-689 | the counting loop yields the size of the set of matching peers |
| RaftServer.Raft.LeaderUpdateCommitIndex | raft/raftCore/raft.cpp:670-704 | the downward loop sets the highest committable index |
| RaftServer.Raft.Start | raft/raftCore/raft.cpp:1139-1180 | state of the model's start step; the answer names the new entry's index and term |
| RaftServer.Raft.ApplyLogs | raft/raftCore/raft.cpp:438-461 | the loop emits the model's messages and advances lastApplied, which RaftHandlers.Applies describes |
| RaftServer.Raft.Snapshot | raft/raftCore/raft.cpp:1293-1335 | state of the model's snapshot step |
| RaftServer.Raft.InstallSnapshot | raft/raftCore/raft.cpp:504-575 | state and reply of the model's install step |
| RaftServer.Raft.HandleSnapshotReply | raft/raftCore/raft.cpp:648-667 | state of the model's snapshot answer step |
| Replicas.StreamsAgree | raft/raftCore/raft.cpp:438-461 | of any two nodes' apply streams in a safe run the shorter begins the longer |
| Replicas.ReplicasAgree | raft/raftCore/kvServer.cpp:180-213 | replicas that have applied equally many commands hold the same store and remember the same requests, however far each lags behind its node and whatever their wait channels did |
| KvStore.DuplicateExactly | raft/raftCore/kvServer.cpp:215-222 | a request is a duplicate if and only if a write of the same client numbered at least as high was delivered before |
| KvStore.AtMostOnce | raft/raftCore/kvServer.cpp:194-204 | the numbers of a client's executed writes strictly increase, so none is executed twice |
| KvStore.NothingSkipped | raft/raftCore/kvServer.cpp:194-204 | every delivered write was executed or was a duplicate when it came |
| KvStore.StoreIsFold | raft/raftCore/kvServer.cpp:23-44 | the store is the fold of the accepted overwrites |
| KvStore.DeliveryExecutes | raft/raftCore/kvServer.cpp:194-204 | a Put and an Append past the snapshot overwrite unless their number or a higher one is remembered; nothing else changes store or numbers |
| KvStore.OnlyDeliveriesMatter | raft/raftCore/kvServer.cpp:180-213 | store and remembered numbers depend on the deliveries alone |
| KvStore.RememberedExactly | raft/raftCore/kvServer.cpp:180-222 | whatever the handlers do to the channels, a number is remembered if and only if a write of the client numbered that high was delivered |
| KvStore.PoppedWasDelivered | raft/raftCore/kvServer.cpp:354-366 | what comes out of a wait channel was delivered at its index |
| KvStore.EveryDeliveryNotifies | raft/raftCore/kvServer.cpp:180-213 | every delivery past the snapshot, write, Get or duplicate, is appended to the channel of its index if there is one, and no other channel changes |
| KvStore.ChannelHolds | raft/raftCore/kvServer.cpp:263-308 | over any run a channel holds exactly what was delivered at its index since it was opened, less what was popped, in order |
| KvStore.OkOnlyIfRemembered | raft/raftCore/kvServer.cpp:275-301 | on every OK, popped or timed out, the server remembers the request's number if and only if the popped operation is a write or such a write was delivered |
| KvStore.OkIsReliable | raft/raftCore/kvServer.cpp:275-301 | if no Get was delivered under the number of a write, every OK to that write means it is remembered |
| KvStore.OkExactly | raft/raftCore/kvServer.cpp:275-301 | PutAppend answers OK after a timeout if and only if a write numbered that high was delivered, and after a pop if and only if client and number match |
| KvStore.OwnWriteIsAnswered | raft/raftCore/kvServer.cpp:275-301 | a request whose own write is the first delivered while its channel is open is popped and answered OK |
| KvStore.OkWithoutWrite | raft/raftCore/kvServer.cpp:290-297 | a Get under the same client and number makes PutAppend answer OK with nothing written |
| KvServers.KvServer.GetCommandFromRaft | raft/raftCore/kvServer.cpp:180-213 | one delivery does to the skip list, the numbers and the channels what the model says; KvStore.EveryDeliveryNotifies says what reaches the channels |
| KvServers.KvServer.ApplyLoop | raft/raftCore/kvServer.cpp:311-328 | the loop over deliveries is the model's run, whatever levels the skip list draws |
| KvServers.KvServer.IfRequestDuplicate | raft/raftCore/kvServer.cpp:215-222 | the model's test for a duplicate |
| KvServers.KvServer.ExecuteWrite | raft/raftCore/kvServer.cpp:77-86 | the skip list takes the value and the client's number is remembered; the Append at lines 23-44 does the same |
| KvServers.KvServer.SendMessageToWaitChan | raft/raftCore/kvServer.cpp:354-366 | the operation is queued exactly when somebody opened the index's channel |
| KvServers.KvServer.OpenChannel | raft/raftCore/kvServer.cpp:264-270 | a channel that exists keeps its contents |
| KvServers.KvServer.TimeOutPop | raft/raftCore/kvServer.cpp:272-275 | hands out the oldest operation of the channel, if there is one |
| KvServers.KvServer.CloseChannel | raft/raftCore/kvServer.cpp:303-308 | the channel goes, everything else stays |
| KvServers.KvServer.PutAppendReply | raft/raftCore/kvServer.cpp:271-301 | the model's answer |
| Keys.LessOrders | skipList/include/skipList.h:174 | the key comparison is a strict total order |
| Keys.LessMeans | skipList/include/skipList.h:174 | a key comes first when, where the two first differ, it has ended or has the smaller character |
| SkipLists.SkipList.InsertElement | skipList/include/skipList.h:163-217 | contents gain the key unless it is there, the code says which; a new node of the drawn height joins the nodes there were, and the structure stays valid for any draw |
| SkipLists.SkipList.DeleteElement | skipList/include/skipList.h:320-355 | contents lose the key and nothing else, levels left empty are dropped |
| SkipLists.SkipList.InsertSetElement | skipList/include/skipList.h:363-369 | contents map the key to the new value |
| SkipLists.SkipList.SearchElement | skipList/include/skipList.h:391-414 | finds a key exactly when it is there, with its value |
| SkipLists.SkipList.GetRandomLevel | skipList/include/skipList.h:459-466 | one more than the odd draws in a row, at most the maximum |
| SkipLists.SkipList.Size | skipList/include/skipList.h:294-296 | the element count is the size of the map |
| SkipLists.PerformAll | skipList/include/skipList.h:163-414 | any sequence of operations gives the results and contents of a map |
| SkipLists.WalkIsChain | skipList/include/skipList.h:25-26 | the pointers of level i visit exactly the nodes at least i levels tall, in key order |
| SkipLists.ChainsNest | skipList/include/skipList.h:142-158 | each chain is the one below without its shorter nodes, and chain 0 has every node |
| SkipLists.FirstInserted | skipList/include/skipList.h:204-208 | where every pointer has to lead once a node is spliced in |
| SkipLists.FirstRemoved | skipList/include/skipList.h:336-342 | where every pointer has to lead once a node is cut out |
| SkipLists.KeyAtRank | skipList/include/skipList.h:404-410 | the key is there exactly when the node after the descent carries it |
| ByteArrays.ByteArray.Write | sylar/bytearray.cc:344-377 | the flat sequence is overwritten at the cursor and grows as needed; the cursor moves past the bytes |
| ByteArrays.OverwrittenAt | sylar/bytearray.cc:344-377 | every byte of the flat sequence after a write: the written ones at the cursor, the others as they were |
| ByteArrays.ByteArray.Read | sylar/bytearray.cc:379-406 | returns the bytes at the cursor or fails without a trace |
| ByteArrays.ByteArray.SetPosition | sylar/bytearray.cc:445-461 | moves the cursor up to the capacity, raising the size, and fails beyond it |
| ByteArrays.ByteArray.AddCapacity | sylar/bytearray.cc:505-534 | room for n bytes behind the cursor with as few new chunks as possible, no byte changed |
| ByteArrays.GrowsAsNeeded | sylar/bytearray.cc:505-534 | the new capacity is enough, made of whole chunks, and not one chunk too many |
| ByteArrays.ByteArray.Clear | sylar/bytearray.cc:331-342 | one empty chunk is left |
| ByteArrays.ByteArray.CursorIsChunk | sylar/bytearray.cc:353-355 | m_cur is the chunk at position / m_baseSize, and null exactly at the capacity |
| ByteArrays.ByteArray.GetReadBuffers | sylar/bytearray.cc:563-592 | the stretches that cover the next len bytes, or all that are left |
| ByteArrays.ByteArray.GetWriteBuffers | sylar/bytearray.cc:631-659 | the stretches that cover len bytes from the cursor, after making room |
| ByteArrays.ByteArray.ReceiveInto | sylar/streams/socket_stream.cc:28-39 | filling the write buffers and moving the cursor is the same as writing those bytes |
| ByteArrays.ByteArray.SendFrom | sylar/streams/socket_stream.cc:48-59 | gathering the read buffers and moving the cursor is the same as reading those bytes |
| ByteArrays.PerformAll | sylar/bytearray.cc:344-461 | for every chunk size, any sequence of writes, reads and cursor moves is a run of the flat sequence; only a read of nothing at the null cursor is excluded |
| Chunks.ChunkPatch | sylar/bytearray.cc:358-371 | overwriting part of a chunk overwrites the flat bytes at its place |
| Chunks.ChunkSlice | sylar/bytearray.cc:389-403 | part of a chunk is the flat bytes at its place |
| Chunks.CeilCovers | sylar/bytearray.cc:514-515 | the rounded-up number of chunks covers the bytes and one fewer does not |
| Varints.ZigzagDecodes32 | sylar/bytearray.cc:112-134 | zigzag decoding undoes encoding on every 32-bit value, the signed minimum included |
| Varints.ZigzagEncodes32 | sylar/bytearray.cc:112-134 | and encoding undoes decoding |
| Varints.ZigzagNumbers32 | sylar/bytearray.cc:112-134 | as numbers: a non-negative v becomes 2v and a negative one -2v-1 |
| Varints.ZigzagDecodes64 | sylar/bytearray.cc:120-134 | the same for 64 bits |
| Varints.ZigzagEncodes64 | sylar/bytearray.cc:120-134 | the same for 64 bits |
| Varints.ZigzagNumbers64 | sylar/bytearray.cc:120-134 | the same for 64 bits |
| Varints.RoundTrip32 | sylar/bytearray.cc:141-265 | every 32-bit value comes back from its encoding whatever follows, using exactly the one to five bytes written |
| Varints.EncodesGroups32 | sylar/bytearray.cc:141-150 | byte k carries the k-th group of seven bits, lowest first, only the last byte has a clear top bit, and no shorter encoding would do |
| Varints.DecodeReads32 | sylar/bytearray.cc:253-265 | on any bytes, decoding reads up to the first byte with a clear top bit or five bytes, and fails exactly when the bytes run out first |
| Varints.RoundTrip64 | sylar/bytearray.cc:156-283 | every 64-bit value comes back, using exactly the one to ten bytes written |
| Varints.EncodesGroups64 | sylar/bytearray.cc:156-165 | the same for 64 bits |
| Varints.DecodeReads64 | sylar/bytearray.cc:271-283 | the same for 64 bits and ten bytes |
| VarintIO.Fill32 | sylar/bytearray.cc:141-150 | the loop fills its five-byte buffer with the encoding |
| VarintIO.Fill64 | sylar/bytearray.cc:156-165 | the loop fills its ten-byte buffer with the encoding |
| VarintIO.ReadUint32 | sylar/bytearray.cc:253-265 | the loop decodes from the cursor, and fails when the bytes run out |
| VarintIO.ReadUint64 | sylar/bytearray.cc:271-283 | the loop decodes from the cursor, and fails when the bytes run out |
| VarintIO.SignedRoundTrip32 | sylar/bytearray.cc:137-139 | a signed value written anywhere is read back from there, whatever is around it |
| VarintIO.SignedRoundTrip64 | sylar/bytearray.cc:152-154 | the same for 64 bits |
| VarintIO.WriteThenRead32 | sylar/bytearray.cc:249-251 | on the chunked buffer itself: write, go back, read returns the value and consumes what was written |
| VarintIO.WriteThenRead64 | sylar/bytearray.cc:267-269 | the same for 64 bits |
| Timers.TimerManager.Find | sylar/timer.cc:44-45 | a timer of the set is found where it is and no other is, so cancel may erase without looking |
| Timers.TimerManager.AddLocked | sylar/timer.cc:173-184 | the timer joins the ordered set, with a wake-up exactly when it comes first and none is outstanding |
| Timers.TimerManager.AddTimer | sylar/timer.cc:99-105 | a new armed timer with its deadline, waking exactly when it comes first and no wake-up is outstanding |
| Timers.TimerManager.Cancel | sylar/timer.cc:40-49 | the timer leaves the set exactly when its callback was set |
| Timers.TimerManager.Refresh | sylar/timer.cc:51-64 | a new deadline from now, the set otherwise as it was |
| Timers.TimerManager.Reset | sylar/timer.cc:66-90 | a new period and deadline, the set otherwise as it was, and a wake-up exactly when it now comes first and none is outstanding |
| Timers.TimerManager.GetNextTimer | sylar/timer.cc:120-134 | the time to the first deadline, remembered as a promise |
| Timers.TimerManager.ListExpiredCb | sylar/timer.cc:136-171 | exactly the callbacks due by now, in deadline order; only recurring timers stay armed |
| Timers.TimerManager.EarlierTimerWakes | sylar/timer.cc:120-184 | anything due before what getNextTimer promised has caused a wake-up since |
| Timers.Sleep | sylar/timer.cc:120-184 | a thread that sleeps as long as getNextTimer said misses nothing: after any operations by others, a timer due earlier has caused a wake-up |
| IOManagers.OncePerRegistration | sylar/iomanager.cc:80-97 | every registration is held for one bit, or was scheduled once, or was deleted once: exactly one of these |
| IOManagers.RunsConserve | sylar/iomanager.cc:153-321 | over any run of the operations registrations are conserved and what was scheduled or deleted stays so |
| IOManagers.OpsDo | sylar/iomanager.cc:153-440 | registration by registration: adding holds a new one, cancelling and dispatching schedule what is registered, read before write, and delete nothing, deleting schedules nothing |
| IOManagers.PerformAll | sylar/iomanager.cc:153-440 | any sequence of the class's operations is such a run; the counter is the number of set bits and the scheduler got exactly the handlers of the scheduled registrations |
| IOManagers.IOManager.AddEvent | sylar/iomanager.cc:153-215 | fails on a set bit or a failed epoll_ctl, otherwise fills the empty context with the handler and counts one more |
| IOManagers.IOManager.DelEvent | sylar/iomanager.cc:217-250 | clears bit, context and count together; the registration is deleted and nothing is scheduled |
| IOManagers.IOManager.CancelEvent | sylar/iomanager.cc:252-282 | schedules the registered handler once and counts one fewer |
| IOManagers.IOManager.CancelAll | sylar/iomanager.cc:284-321 | schedules every registered handler of the descriptor, read before write, and deletes none |
| IOManagers.IOManager.TriggerEvent | sylar/iomanager.cc:80-97 | the handler that was registered is the one scheduled, and the context is empty again |
| IOManagers.IOManager.Dispatch | sylar/iomanager.cc:393-440 | the handlers registered for what epoll reported are scheduled, read before write, and none is deleted |

## Left out

- Crash and restart: nodes do not restart, so persist and readPersist are not modelled.
- Snapshots in the safety theorems: leaderSendSnapShot does not recheck leadership and InstallSnapshot
  keeps a suffix without checking the boundary term, so log matching, leader completeness and state
  machine safety are stated for runs without snapshots; the other Raft theorems include them.
- RaftTheorems.LeaderCompleteness: the condition on merges is sufficient, not necessary; a harmful merge
  may do no harm to a particular commit.
- RaftTheorems.StateMachineSafety: the same.
- Integers of the Raft node, of timers and of buffer sizes are unbounded; 32- and 64-bit wrap-around is
  modelled in the varint and zigzag codecs only.
- Failed assertions end the process in the source; in the cluster model such a step is not enabled, and
  the theorems above say which of them can never fail.
- RaftCluster lets a snapshot be sent, and a snapshot reply be handled, more often than the source does,
  which only adds runs.
- Election and heartbeat timeouts, tickers and sleeps: steps are scheduled in any order. Liveness is out
  of scope.
- RPC, protobuf, sockets, HTTP, configuration and logging. How a command is turned into a string and back
  is a parameter.
- KvServers.KvServer.TimeOutPop: a channel is looked up by its index; two PutAppend calls on one index share a
  queue in the source, and the first to finish deletes it under the other.
- KvServer's Get handler, which changes m_lastRequestId outside the apply loop, and the server's own
  snapshots.
- The skip list's dump and load, and its generic key and value types: it is modelled for strings, as the
  store uses it. Freed memory is not modelled.
- ByteArray's files, floating point and fixed-width integers, byte order, reads at an explicit position,
  and the rounding of a double in addCapacity for sizes beyond 2^53.
- Timers.TimerManager.AddTimer: a callback is demanded; an empty one would put a timer into the set that
  counts as cancelled.
- IOManagers.IOManager.Dispatch: what epoll reports is demanded to be registered, because idle does not
  mask it and triggerEvent asserts it.
- Fibers, scheduling and the locks themselves: each locked region is one step.
