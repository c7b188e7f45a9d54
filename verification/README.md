# Ocean Liner, verified model

Ocean Liner is a Raft-replicated key-value store in C. This Dafny project models the parts of it whose
correctness only shows over whole runs or over all inputs, and proves their central properties.

- **Raft** (`src/raft_core.c`). `RaftCore` gives each handler as a function on a node, `RaftNode` the node as a
  class whose methods compute those functions, and `Election` runs any number of nodes over an unreliable
  network. `ElectionHistory` follows terms, logs and votes along runs, `ElectionRoles` who has the role of leader, and
  `ElectionWitnesses` holds the runs that break a property and the exact conditions they leave. The reference is
  sections 5.2 and 5.4.1 of Ongaro and Ousterhout, "In Search of an Understandable Consensus Algorithm".
- **Command pipeline** (`src/log_file.c`, `src/globals.c`, `src/command_batcher.c`, `src/raft_core.c`, `src/main.c`).
  `CommandFrames` is the byte format of a command and the walk over packed frames, `Batcher` the batch buffer and
  its threads, `Pipeline` the way of a command from acceptance to the state machine, whose steps the methods of
  `RaftNode` take, `BatchBuilding` the packing of datagrams by thread 1 and the walk of thread 5.
- **Log file** (`src/log_file.c`) in `LogFile`, and the example log script
  (`scripts/generate-log-file-example.py`) in `LogScript`.
- **Cluster handshake** (`init_cluster` in `src/main.c`) in `Mesh`.
- **xxHash** (`include/xxhash.h`). `Xxh32` and `Xxh64` are the complete algorithms over machine words, with known
  hashes in `XxhVectors`; `Xxh3` is the stripe, block and buffer accounting of XXH3 with the arithmetic of one stripe
  as a parameter; `XxhForms` holds the portable 128-bit multiply and the rolled and unrolled middle-length hashes.
- **Adaptive timeout** (`src/adaptive_timeout.c`) in `AdaptiveTimeout`, over real numbers; its recurrences are those
  of rule 2.3 in section 2 of RFC 6298.

`Bytes`, `BlockFold`, `Integers` and `FiniteSets` are shared. Machine arithmetic is explicit: counters wrap modulo
2^32 or 2^64 where the source's do, and the hashes work on bit vectors. Methods are proved against functions, and
the properties of those functions are lemmas.

## Assumptions

- Raft nodes keep votes in memory and do not restart. A vote request reaches a peer at most once per candidacy and
  each reply is delivered at most once, because `raft_record_vote` does not recognise repeats. A candidate counts
  either the grants of its current candidacy or those that carry its current term (`Election.Counting`).
  `raft_become_leader` is called once for each majority reported, at any later time, and `raft_become_follower` with a
  larger term only. Terms that arrive in messages are terms some node has reached.
- Checking a reply and counting it are one step, as they are under the lock of `src/main.c:942-952`;
  `raft_record_vote` alone reads the role before it takes the lock (`src/raft_core.c:216`).
- A locked region is one step, `commit_index` grows by the environment, and `command_batcher_start` is not called
  while a stop is still at work. Memory blocks are 8-aligned.
- Commands handed to `raft_handle_client_command` are whole frames, and datagrams pass the assertions of thread 1.
  A write transfers all its bytes. The accumulate, scramble, middle and short hash functions of XXH3, and `apply`, are
  functions of their arguments. A secret given by reference does not change while it is in use.
- Round-trip samples come from a monotonic clock, so round-trip times are not negative.

## What the code does that its documentation does not say

- **Late leaders.** The caller that learns of a majority releases the lock before it calls `raft_become_leader`, which
  checks neither role nor term (`src/main.c:697-699`, `src/raft_core.c:166-182`). In between, the node may vote in a
  later term or step down, and it then becomes leader of a term it did not win, beside the node that won it
  (`ElectionWitnesses.LateLeader`), or of a term in which it never asked for a vote
  (`ElectionWitnesses.LateLeaderUnrestricted`). `Election.Config.guarded` says whether the caller checks again.
  Election safety holds exactly for sound clusters that are guarded or too small to elect anybody
  (`ElectionWitnesses.ElectionSafetyExactly`), and the election restriction exactly if guarded or too small
  (`ElectionWitnesses.ElectionRestrictionExactly`).
- **Node 0.** `voted_for == 0` means no vote, so a vote for a node numbered 0 binds nobody. `Election.Sound` says what
  is left, and `ElectionWitnesses.UnsoundIsUnsafe` builds a run with two leaders in one term for every other cluster,
  guarded or not. `include/raft_core.h` and `include/globals.h` define `MAX_NODES` differently; the theorem keeps it
  as a parameter.
- **Stale stamps.** `process_raft_batch` and `raft_handle_client_command` read `current_term` without the lock under
  which the entry is appended (`src/raft_core.c:703-716`, `747-755`). A worker that read an old term can append behind
  an entry of a later one, which takes the node's last (term, index) pair back
  (`ElectionWitnesses.StaleStampGoesBack`). Along a run the pairs never go back, and the logs stay ordered, exactly if
  no entry is stamped older than the one before it (`ElectionHistory.NodesOnlyAdvance`,
  `ElectionHistory.LogsOrderedExactly`).
- **Reply term.** A vote reply carries the term from before the voter caught up (`RaftCore.GrantTerm`), so a
  candidate that filters on it, as the receive loop of `src/main.c` does, drops grants; it never counts a wrong one
  (`Election.ReplyTermFilter`), and election safety holds for the same clusters with and without the filter.
- **Candidates.** An append request of a candidate's own term leaves it a candidate
  (`RaftCore.AppendRequestMeaning`), where section 5.2 of the Raft paper makes it a follower.
- **Command size.** `command_batcher_add_command` takes 32 bits of a `size_t` (`Batcher.AddTruncates`).
- **Header checksum.** It hashes `sizeof(header)` bytes of a pointer, that is 8, so it covers the term alone
  (`LogFile.ChecksumCoversTermOnly`, `LogFile.AlteredLengthValidates`). `num_commands` is always written as 0, and
  `num_cmds` of a command buffer is never initialised if `NDEBUG` is defined, which the build flags do not do.
- **Log size.** `lseek` results are kept in an `int32_t` that is asserted not to be negative. An append therefore
  stops the program once the file has reached 2^31 bytes, and reading the last pair once it has passed
  2^31 + 47 (`LogFile.AppendsCompleteExactly`, `LogFile.LastPairExactly`; `LogFile.FullFileRefuses` and
  `LogFile.LastPairLost` are files at those sizes).
- **Values over 128 bytes.** Thread 5 copies the value of each SET into an array of 128 bytes, so a longer one has
  no defined effect (`BatchBuilding.LongValueStops`). Keys reach the store as C strings, so a key that holds a zero
  byte, or has none behind it, is not the key announced (`BatchBuilding.ZeroInKeyCutsIt`).
  `BatchBuilding.CarriedOutExactly` says exactly which batches are carried out as announced whatever the memory held
  between the datagrams, and `BatchBuilding.BatchApplies` which are with the memory as it is, if all datagrams hold
  their key's terminator.
- **Short datagrams.** The assertions on receipt compare aligned lengths, so a datagram may lack its last bytes and
  takes them from whatever the buffer held, zeros if the buffers were cleared (`BatchBuilding.CompleteExactly`,
  `BatchBuilding.ShortDatagramAccepted`).
- **Keys with zero bytes** do not survive the example script (`LogScript.ScriptRoundTrip`).
- **Timeout growth.** A minimum timeout of 0 or 1 never grows on missed heartbeats
  (`AdaptiveTimeout.ReachesMaximumExactly`). `SAFETY_FACTOR` is 1.5 in the header and 2.0 in its comment and in
  `oceanliner-architecture.md`, whose formula also differs; the model follows the code.
- **Least round trip.** A sample of 0 is taken for "none yet" and forgotten (`AdaptiveTimeout.MinRttExact`).

## Model

| member | source | states |
|---|---|---|
| RaftCore.GrantMeaning | src/raft_core.c:356-412 | a vote is granted exactly when the request is current, the voter is free or already chose this candidate, and the candidate's last entry is of a later term or of the same term in a log at least as long; a grant binds the voter |
| RaftCore.VoteRequestMeaning | src/raft_core.c:366-412 | after any vote request the term is the greater of the two; a later term makes the node a follower, with a vote exactly if it grants one to a sender other than 0; an older one changes nothing; count, leader and log stay, and the reply always carries the term from before |
| RaftCore.RoleChanges | src/raft_core.c:126-182 | what campaigning, leading and stepping down change and what they keep |
| RaftCore.GrantTerm | src/raft_core.c:366-383 | a granting reply's term is at most the request's, and equal to it exactly when the voter did not have to catch up |
| RaftCore.AppendRequestMeaning | src/raft_core.c:300-353 | an append request succeeds exactly when it is current and the log holds the entry it builds on; the log is unchanged, and vote and role change only with the term |
| RaftCore.AppendInOrder | src/raft_core.c:256-279 | an append adds one entry with its term, kind and bytes at the next index; it keeps log terms ordered exactly when its stamp is not older than the last entry, and then the last position strictly grows |
| RaftNodes.RaftNode.constructor | src/raft_core.c:51-102 | a new node is a follower of term 0 with an empty log, nothing applied and an empty batch: the first state of a command path |
| RaftNodes.RaftNode.BecomeFollower | src/raft_core.c:126-147 | the whole election state after stepping down: term taken over, vote cleared |
| RaftNodes.RaftNode.BecomeCandidate | src/raft_core.c:149-164 | a new candidacy: next term, own vote, count 1, no leader |
| RaftNodes.RaftNode.StartElection | src/raft_core.c:502-529 | a new candidacy that keeps the known leader |
| RaftNodes.RaftNode.BecomeLeader | src/raft_core.c:166-182 | the role of leader and itself as leader, every `next_index` just past the log, and term, vote and log unchanged |
| RaftNodes.RaftNode.RecordVote | src/raft_core.c:215-224 | only a candidate counts, by one, and the result is a majority of `MAX_NODES` |
| RaftNodes.RaftNode.HandleRequestVote | src/raft_core.c:356-412 | the branches of the handler compute the voting function that the run-level safety proofs use |
| RaftNodes.RaftNode.HandleAppendEntries | src/raft_core.c:300-353 | the term, leader and log-consistency checks, as the run-level proofs use them |
| RaftNodes.RaftNode.AppendEntry | src/raft_core.c:256-279 | exactly one entry is added, at the next index, with the given term, kind and bytes |
| RaftNodes.RaftNode.ReplicateLogs | src/raft_core.c:281-297 | only a leader moves on, by one, exactly the peers that lag, and `next_index` stays in range |
| RaftNodes.RaftNode.TakeBatch | src/command_batcher.c:51-58 | a nonempty batch leaves the batcher whole, as the extraction step of a command path, and conservation is kept |
| RaftNodes.RaftNode.ProcessBatch | src/raft_core.c:703-725 | a delivered batch becomes one command entry of the current term holding exactly its bytes, the log's commands grow by those the bytes spell, a leader moves exactly the lagging peers on; it is the delivery step of a command path and keeps conservation |
| RaftNodes.RaftNode.HandleClientCommand | src/raft_core.c:728-764 | a leader puts the command into the batch or, if refused, into one entry of its own holding its bytes, and moves exactly the lagging peers on; others return -2 and change nothing; on a command path it is acceptance, with delivery if refused, and keeps conservation |
| RaftNodes.RaftNode.ApplyCommandBatch | src/raft_core.c:767-805 | walking a block takes the machine through one application of each of its commands, in order |
| RaftNodes.RaftNode.ApplyEntry | src/raft_core.c:555-605 | the single-command and the batch path do the same: one application of each of the entry's commands, in order |
| RaftNodes.RaftNode.ApplyCommitted | src/raft_core.c:532-621 | a pass ends at max(old, min(commit, count)) and applies exactly the commands of the entries between, each once, in order, no-ops skipped; it is the apply step of a command path and keeps conservation |
| StateMachine.RanIsFold | src/raft_core.c:570-605 | the fold the run proofs use is the one state that a chain of single applications, one for each command, leads to |
| StateMachine.FoldRecords | src/raft_core.c:570-605 | a machine that writes down what is applied to it ends with exactly the commands, once and in order |
| StateMachine.SingleOrBatch | src/raft_core.c:561-605 | the length test takes the batch path exactly for blocks of more than one command |
| StateMachine.WalkAnywhere | src/raft_core.c:767-805 | what a block decodes to does not depend on its 8-aligned address |
| Election.StepKeepsInv | src/raft_core.c:149-412 | one vote per node and term, exact vote counts, truthful replies and quorum-backed majorities survive every step, with becoming leader a step of its own |
| Election.RunInv | src/raft_core.c:149-412 | the invariant holds in every state of every run with any number of nodes |
| Election.WinnersUnique | src/raft_core.c:215-224 | two ballots of one term that ever had a majority are the same, in a sound cluster, guarded or not |
| Election.NoWinners | src/raft_core.c:215-224 | in a cluster smaller than a quorum nobody ever wins or leads |
| Election.SoundIsSafe | src/raft_core.c:166-224 | in sound clusters that are guarded or too small to elect anybody, no run has two leaders in one term |
| Election.ReplyTermFilter | src/raft_core.c:366-408 | a granted reply that passes a filter on its own term answers the current candidacy |
| Election.CountedIsCurrent | src/main.c:942-952 | under either counting rule only answers to the current candidacy count |
| ElectionHistory.NodesOnlyAdvance | src/raft_core.c:256-412 | along every run terms never go back, and last (term, index) pairs never do if and only if no entry is stamped older than the one before it |
| ElectionHistory.LogsOrderedExactly | src/raft_core.c:256-279 | every log of a run keeps its terms nondecreasing and at most the node's term if and only if no stamp is stale |
| ElectionHistory.VoteWasCast | src/raft_core.c:385-408 | every vote was cast at some step of the run, at the log position recorded for it |
| ElectionHistory.WinnersReach | src/raft_core.c:385-408 | if a set meeting every quorum had reached a pair before voting in a term, whoever won the term asked for votes at that pair or later, and its log is still there if no stamp is stale |
| ElectionHistory.GuardedRestricts | src/raft_core.c:166-224 | every leader of that term has a last pair at least as great, in runs without stale stamps, if guarded or too small to elect anybody |
| ElectionRoles.LeadTakesOffice | src/raft_core.c:166-182 | the step after a majority, unless a guard drops it, leaves its node in the role of leader, knowing itself as leader, with term, vote and log unchanged and no other node touched |
| ElectionRoles.RunLed | src/raft_core.c:126-412 | in every state of every run whoever has the role of leader became leader in its present term |
| ElectionRoles.SafeRoles | src/raft_core.c:126-412 | so without two leaders of a term in history no two nodes are leaders of one term at once |
| ElectionRoles.LaterTermDeposes | src/raft_core.c:300-412 | a node that hears of a later term is a follower of it afterwards, whatever it was; an older term changes nothing, and no other node changes |
| ElectionWitnesses.UnsoundIsUnsafe | src/raft_core.c:382-402 | for every cluster that is not sound some run has two leaders in one term, also both at once, with either counting rule, guarded or not |
| ElectionWitnesses.LateLeader | src/main.c:697-699 | unguarded, of any two nodes one wins term 2, the other term 4, and both become leader of term 4 |
| ElectionWitnesses.UnguardedIsUnsafe | src/raft_core.c:166-182 | an unguarded cluster that can elect anybody has a run with two leaders in one term |
| ElectionWitnesses.ElectionSafetyExactly | src/raft_core.c:149-412 | election safety over all runs holds if and only if quorums overlap, no node is numbered 0 (unless a quorum needs every node), and becoming leader is guarded or nobody can win; and exactly then no run has two nodes in the role of leader of one term at once |
| ElectionWitnesses.AppendStale | src/raft_core.c:703-716 | from every state with a node whose last entry is of a later term than the stamp, an append takes its last pair back and breaks the order of its log |
| ElectionWitnesses.StaleStampGoesBack | src/raft_core.c:703-716 | every node of every cluster has a run that gets it there |
| ElectionWitnesses.LateLeaderUnrestricted | src/main.c:697-699 | unguarded, without stale stamps, a node becomes leader behind a pair that a set meeting every quorum had reached before voting in the term |
| ElectionWitnesses.ElectionRestrictionExactly | src/raft_core.c:385-408 | the restriction on leaders holds in all runs without stale stamps if and only if becoming leader is guarded or nobody can win |
| Bytes.JumpToAlignment | src/globals.c:21-25 | the result is a multiple of the alignment and the first one at or above the pointer |
| Bytes.AlignmentUnique | src/globals.c:21-25 | those facts determine the result |
| Bytes.ByteOrder | scripts/generate-log-file-example.py:44-48 | integers lie least significant byte first |
| Bytes.MaskIsAlignment | src/globals.c:21-25 | the mask form on 64-bit words meets the same facts, for the alignments 4 and 8 of all its callers, below the wrap |
| CommandFrames.KeyRegion | src/log_file.c:14-32 | aligning the address and aligning the value length agree on an 8-aligned frame, so value and key regions are disjoint and inside it and frame lengths are multiples of 8 |
| CommandFrames.KeyNeedsAlignment | src/log_file.c:27-32 | the key accessor and the frame length agree on where the key starts if and only if the address is a multiple of 4 |
| CommandFrames.SourceForm | src/log_file.c:14-32 | key pointer and frame length are those computed with `jump_to_alignment` |
| CommandFrames.ReadIffRepresents | src/log_file.c:14-38 | the accessors return a command exactly when the block starts with bytes that spell it |
| CommandFrames.WalkIffPacking | src/raft_core.c:771-802 | the walk returns a list exactly when the block is back-to-back frames of that list: it ends at the exact end, loses nothing and accepts nothing else |
| CommandFrames.PackingUnique | src/raft_core.c:771-802 | a block has at most one reading |
| CommandFrames.EncodeRepresents | include/globals.h:38-48 | a client's frame spells its command |
| CommandFrames.FrameRoundTrip | src/log_file.c:14-38 | packing any list of commands and walking the bytes at any 8-aligned address returns the list |
| Batcher.AddStoresWhole | src/command_batcher.c:156-181 | a command is accepted exactly when it is not empty and fits, and is stored whole exactly when its size fits 32 bits |
| Batcher.AddTruncates | src/command_batcher.c:156-181 | a frame of 2^32 + 8 bytes is accepted as its first 8 bytes |
| Batcher.CommandBatcher.constructor | src/command_batcher.c:75-98 | a new batcher is empty |
| Batcher.CommandBatcher.NewBatch | src/command_batcher.c:207-217 | the batch is empty again |
| Batcher.CommandBatcher.AddCommand | src/command_batcher.c:156-181 | the buffer holds the old bytes followed by the command, or is unchanged when it is refused; it never exceeds 65536 bytes |
| Batcher.CommandBatcher.Extract | src/command_batcher.c:40-62 | a nonempty batch is handed out complete and the buffer starts empty |
| BatcherThreads.StepKeepsInv | src/command_batcher.c:31-73 | conservation, single delivery and the threads' control state survive every step of adders, worker, flushers and stop |
| BatcherThreads.RunInv | src/command_batcher.c:31-205 | in every run the extracted batches in extraction order followed by the current batch are the accepted bytes in acceptance order, and each extraction is held by one thread or delivered once |
| BatcherThreads.StopDrainsAll | src/command_batcher.c:130-154 | when stop returns, with adds over and no flusher at work, everything accepted has been delivered |
| BatcherThreads.DeliveryOrder | src/command_batcher.c:31-154 | without flush, batches are delivered in extraction order |
| BatcherThreads.LookExactly | src/command_batcher.c:40-66 | the worker takes a batch out exactly when there is one and its delay has passed or it fills half the buffer |
| BatcherThreads.WorkerServes | src/command_batcher.c:31-73 | from every state of every run, an active batcher gets a waiting batch delivered in at most four steps of its worker |
| BatcherThreads.FlushServes | src/command_batcher.c:184-205 | flush gets a waiting batch delivered in two steps |
| BatcherThreads.StopReturns | src/command_batcher.c:130-154 | whatever the worker is doing, stop can return, with the batch empty and the worker gone |
| Pipeline.AddDecodes | src/command_batcher.c:156-181 | a frame appended to a batch adds its command at the end of what the batch decodes to |
| Pipeline.AcceptConserves | src/raft_core.c:728-764 | accepting a command puts it in the batch or in a block of its own, once |
| Pipeline.DeliverKeeps | src/raft_core.c:703-725 | delivering any pending block moves its commands to the log |
| Pipeline.ApplyRefines | src/raft_core.c:532-621 | an apply pass leaves the machine equal to one fold over all entries up to the new `last_applied` |
| Pipeline.StepKeepsInv | src/raft_core.c:532-764 | conservation and apply refinement survive every interleaving of accepts, extractions, deliveries, commits and passes |
| Pipeline.RunInv | src/raft_core.c:532-764 | in every run the accepted commands are, as a multiset, those in the log, in undelivered blocks and in the batch; and the machine has gone through one application of each command up to `last_applied`, in log order |
| Pipeline.QuiescentExactlyOnce | src/raft_core.c:532-764 | once nothing is pending and the log is applied, the machine has gone through one application of each accepted command, in the order of the log |
| Pipeline.Drains | src/raft_core.c:532-764 | from every state of every run, extraction, delivery, commit and a pass lead to a state in which each accepted command has been applied once |
| BatchBuilding.FrameReads | src/main.c:421-429 | whatever bytes fill the gap after a datagram, its frame reads as one command of its length, operation and lengths, and as the datagram's own if the datagram is complete |
| BatchBuilding.CompleteExactly | src/main.c:421-429 | the bytes after an accepted datagram leave its command alone if and only if the datagram holds all of it |
| BatchBuilding.ShortDatagramAccepted | src/main.c:421-422 | a 33-byte datagram announcing a 6-byte key passes the assertions and lacks its last key byte |
| BatchBuilding.EncodedWhole | src/log_file.c:14-38 | a client's frame that fits a datagram is accepted and means its command |
| BatchBuilding.CmdBuffer.Append | src/main.c:426-429 | the contents grow by the datagram and unwritten bytes up to the next multiple of 8 |
| BatchBuilding.Place | src/main.c:424-429 | the frame of a GET goes to the read buffer and any other to the write buffer, and the other buffer is untouched |
| BatchBuilding.BuildBatch | src/main.c:377-456 | for all datagrams that pass the assertions, the read buffer is exactly the frames of the GETs and the write buffer exactly those of the rest, in arrival order; header and contents stay below `CMDBUF_SIZE`; the loop stops early only for a new term or a nearly full buffer |
| BatchBuilding.PickSplits | src/main.c:424-424 | every datagram goes to exactly one buffer, by its operation |
| BatchBuilding.HoldsDecodes | src/main.c:1264-1319 | a buffer decodes at any 8-aligned address to one command for each of its datagrams, in order |
| BatchBuilding.WalkWrites | src/main.c:1264-1319 | the walk meets every command once and in order, acts on the C string at each key, and ends exactly at the length unless an assertion, a foreign operation, a SET over 128 bytes or a key without end stops it |
| BatchBuilding.TurnPlain | src/main.c:1272-1292 | one command is carried out as announced if and only if it is a DELETE, or a SET of at most 128 bytes, whose key holds no zero byte and is followed by one |
| BatchBuilding.TurnStops | src/main.c:1280-1296 | a foreign operation, a SET over 128 bytes and a key without end, in this order, are what stops a turn on a whole datagram |
| BatchBuilding.PlainExactly | src/main.c:421-429 | the frame of an accepted datagram is carried out as announced, whatever fills the gap behind it, if and only if the datagram holds its key's terminator and is as above |
| BatchBuilding.CarriedOutExactly | src/main.c:1264-1319 | accepted writes are all carried out as announced, whatever fills the gaps and the memory behind them, if and only if each is so |
| BatchBuilding.BatchApplies | src/main.c:377-437 | every accepted datagram is in exactly one buffer and both buffers decode in order; if all hold their key's terminator, the walk carries all writes out as announced if and only if each is as above, and, keys being ended, reaches its end if and only if each is a DELETE or a SET of at most 128 bytes |
| BatchBuilding.LongValueStops | src/main.c:1289-1290 | a SET of 1000 bytes is accepted and stops the walk |
| BatchBuilding.ZeroInKeyCutsIt | src/kv_store.c:151-161 | a DELETE of the key 1, 0, 2 deletes the key 1 |
| LogFile.KvsbHeader.CalcChecksum | src/log_file.c:40-44 | only the checksum changes, and the header then validates |
| LogFile.KvsbHeader.ValidateChecksum | src/log_file.c:46-54 | the answer is whether the checksum is the one computed, and the header is unchanged |
| LogFile.ChecksumCoversTermOnly | src/log_file.c:40-54 | a header validates exactly when its checksum is the hash of the 8 bytes of its term |
| LogFile.AlteredLengthValidates | src/log_file.c:40-54 | a header that validates still does with another length or index, whatever the hash |
| LogFile.HeaderRoundTrip | include/log_file.h:18-24 | a 48-byte header decodes to itself, with term, command count, index, length and checksum at bytes 0, 8, 16, 24 and 32 |
| LogFile.LogFile.AppendData | src/log_file.c:72-95 | the file grows by header, data and the same header again, and where an assertion on a truncated result stops the program instead |
| LogFile.LogFile.GetLastTai | src/log_file.c:102-124 | the pair in the last header if it validates and its offset is not negative in 32 bits, and (0, 0) for an empty file |
| LogFile.ReadBackward | oceanliner-architecture.md:22-28 | the file of any sequence of records reads back from its end as those records |
| LogFile.ReadForward | oceanliner-architecture.md:22-28 | and from its front |
| LogFile.AppendsComplete | src/log_file.c:72-95 | a sequence of appends returns, and writes exactly its records, if and only if no offset and no data length is negative in 32 bits |
| LogFile.AppendsCompleteExactly | src/log_file.c:83-84 | for the records of command buffers that is: the file is below 2^31 bytes before each append |
| LogFile.LastPairExactly | src/log_file.c:102-124 | after appends that returned, the last pair is reported if and only if the file is at most 2^31 + 47 bytes long |
| LogFile.TaiExactly | src/log_file.c:102-124 | on any file a pair is reported exactly if the file is empty or its last 48 bytes start within 2^31 and end in the hash of their first 8, and then it is the pair in those bytes |
| LogFile.TruncatedIs | src/log_file.c:83-84 | the value kept is the one of the signed 32-bit range that equals the result modulo 2^32 |
| LogFile.FullFileRefuses | src/log_file.c:83-84 | 32 records that fill 2^31 bytes are appended, and the next append is refused |
| LogFile.LastPairLost | src/log_file.c:113-114 | 33 records are appended whose last pair cannot be read |
| LogScript.GenBinLogfile | scripts/generate-log-file-example.py:18-84 | the loop over a growing buffer writes header, the commands padded by the running offset, header |
| LogScript.ReadOne | scripts/generate-log-file-example.py:129-174 | one turn of the decoder's loop, with its four errors |
| LogScript.BinToRecords | scripts/generate-log-file-example.py:87-178 | the decoder returns the records before the first error |
| LogScript.DecodeEncoded | scripts/generate-log-file-example.py:31-48 | a command encoded at any offset decodes there to itself and to the offset after it |
| LogScript.DecodeAll | scripts/generate-log-file-example.py:24-50 | a list of commands encoded at any offset decodes to the list |
| LogScript.LengthsAligned | scripts/generate-log-file-example.py:31-48 | every value length starts at a multiple of 8, behind code, key, zero byte and fewer than 8 bytes of padding, and says how many bytes of value follow |
| LogScript.CutFile | scripts/generate-log-file-example.py:129-174 | a file cut short anywhere inside its last command decodes to the commands before it and reports an error |
| LogScript.DecodesIfLong | scripts/generate-log-file-example.py:87-120 | exactly the files with room for two headers are decoded |
| LogScript.DecodedKeys | scripts/generate-log-file-example.py:140-149 | no decoded key holds a zero byte, whatever the file |
| LogScript.ScriptRoundTrip | scripts/generate-log-file-example.py:18-178 | decoding a generated file returns its commands, in order and without error, if and only if no key holds a zero byte |
| Mesh.StepKeepsInv | src/main.c:226-328 | the loop counters, queues and stored sockets agree with the stage of every pair, after every step |
| Mesh.CanProgress | src/main.c:241-328 | the least unfinished node, or the node it calls, can always move |
| Mesh.StuckIffComplete | src/main.c:226-328 | a reachable state has no next step if and only if every node holds a socket for every other node |
| Mesh.MeshForms | src/main.c:226-328 | in every run no pair connects twice, a run takes at most n + 3 n (n - 1) / 2 steps, and it reaches the full mesh exactly when it has taken them all |
| BlockFold.Resume | include/xxhash.h:3253-3294 | consuming a prefix, keeping its tail and resuming gives the same accumulator and tail as consuming everything |
| BlockFold.RestIs | include/xxhash.h:3198-3198 | the tail is the last len mod 16 (or 32) bytes |
| BlockFold.ConsumeLong | include/xxhash.h:3039-3060 | the loop consumes exactly the whole stripes and returns the position of the tail, for stripes of 16 and 32 bytes |
| BlockFold.CompleteBuffer | include/xxhash.h:3274-3280 | a non-empty buffer is filled and consumed as one block, and the input still to come gives what buffer and input would |
| BlockFold.Absorb | include/xxhash.h:3271-3291 | an update that overflows the buffer consumes buffer and input as far as whole stripes go and buffers exactly the rest |
| Xxh32.FinalizeLoop | include/xxhash.h:3106-3117 | the rerolled loops compute the finalization of the last len mod 16 bytes |
| Xxh32.SwitchIsLoop | include/xxhash.h:3090-3160 | the jump table with its fall-throughs gives the same hash as the loops, for every tail |
| Xxh32.OneShot | include/xxhash.h:3178-3199 | the one-shot routine computes the hash of the whole input |
| Xxh32.Lengths | include/xxhash.h:3261-3262 | the wrapped counter is the length modulo 2^32, and no wrap can hide that 16 bytes have been reached |
| Xxh32.State.Reset | include/xxhash.h:3243-3249 | the state of an empty input |
| Xxh32.State.Update | include/xxhash.h:3253-3294 | after any updates the lanes are those of all whole stripes, the buffer holds exactly the tail, and `large_len` says whether 16 bytes were reached |
| Xxh32.State.Digest | include/xxhash.h:3299-3313 | the digest is the one-shot hash of everything fed, for any total length |
| Xxh32.HashChunks | include/xxhash.h:3243-3313 | for every way of cutting an input into chunks, streaming and one-shot agree |
| Xxh32.ReadsBytes | include/xxhash.h:2884-2887 | byte i of a word read is byte i of memory |
| XxhVectors.Fox32 | include/xxhash.h:2950-3199 | the hash of "The quick brown fox jumps over the lazy dog" is 0xE85EA4DE |
| Xxh64.FinalizeLoop | include/xxhash.h:3632-3657 | the loops compute the finalization of the last len mod 32 bytes |
| Xxh64.OneShot | include/xxhash.h:3676-3696 | the one-shot routine computes the hash of the whole input |
| Xxh64.State.Update | include/xxhash.h:3749-3789 | after any updates the lanes are those of all whole stripes and the buffer holds exactly the tail |
| Xxh64.State.Digest | include/xxhash.h:3794-3808 | the digest is the one-shot hash of everything fed unless the 64-bit counter has wrapped below 32, and what it is then |
| Xxh64.HashChunks | include/xxhash.h:3739-3808 | for every way of cutting an input into chunks, streaming and one-shot agree |
| Xxh64.ReadsBytes | include/xxhash.h:3445-3448 | byte i of a word read is byte i of memory |
| XxhVectors.Fox64 | include/xxhash.h:3491-3696 | the hash of the same sentence is 0x0B242D361FDA71BC |
| XxhVectors.Spam64 | include/xxhash.h:3491-3696 | the hash of "Nobody inspects the spammish repetition" is 0xFBCEA83C8A378BF1 |
| XxhVectors.SeededEmpty | include/xxhash.h:3024-3031 | with seed 0x9E3779B1 the empty input hashes to 0x36B78AE7 and 0xAC75FDA2929B17EF |
| XxhVectors.SeedOne | include/xxhash.h:3024-3031 | where the lanes of both hashes start with seed 1 |
| Xxh3.ConsumeAppend | include/xxhash.h:6509-6543 | consuming stripes in two parts, cut anywhere in a block, is consuming them at once |
| Xxh3.AccumulateIsConsume | include/xxhash.h:6085-6103 | accumulating up to a block's end and scrambling, or stopping before it, is stripe-by-stripe consumption |
| Xxh3.AccumulateStripes | include/xxhash.h:4927-4942 | the accumulation loop, with every secret access inside the secret |
| Xxh3.HashLongLoop | include/xxhash.h:6085-6115 | the loop over blocks, partial block and last stripe computes stripe-by-stripe consumption of all stripes that leave a byte over, then the last 64 bytes |
| Xxh3.ConsumeStripes | include/xxhash.h:6509-6543 | input that starts and ends anywhere in a block is consumed as stripe by stripe |
| Xxh3.ConsumeIs | include/xxhash.h:6085-6103 | stripe i goes with the 64 secret bytes from 8 (i mod p), and every p-th is followed by a scramble with the secret's last 64 bytes |
| Xxh3.HashLongIs | include/xxhash.h:6085-6115 | the lanes of a long input are those of its first (len - 1) / 64 stripes, then its last 64 bytes with the secret bytes that end 7 before its end |
| Xxh3.HashInternal | include/xxhash.h:6256-6276 | up to 240 bytes the short hash with its secret and seed, beyond them the long one with its own secret |
| Xxh3.OneShot | include/xxhash.h:6251-6307 | the one-shot hash in each of the four modes, at either width |
| Xxh3.State.constructor | include/xxhash.h:6388-6394 | a fresh state may be reset with any seed |
| Xxh3.State.Reset | include/xxhash.h:6450-6455 | the state of an empty input in default mode |
| Xxh3.State.ResetWithSecret | include/xxhash.h:6459-6466 | success exactly for a secret that is there and at least 136 bytes, and then the state of an empty input with it |
| Xxh3.State.ResetWithSeed | include/xxhash.h:6470-6478 | the custom secret in use is that of the seed, whether derived now or cached; seed 0 is the default mode |
| Xxh3.State.ResetWithSecretAndSeed | include/xxhash.h:6482-6490 | success exactly for a usable secret, and no change otherwise |
| Xxh3.State.CompleteBuffer | include/xxhash.h:6594-6606 | a non-empty buffer is completed and consumed whole, nothing is lost, and some input is left |
| Xxh3.State.BufferRest | include/xxhash.h:6607-6624 | stripes beyond a buffer are consumed, at least one byte stays, and the last stripe consumed is kept where a digest can reach it |
| Xxh3.State.Update | include/xxhash.h:6554-6631 | after any updates the lanes are those of the consumed stripes, the rest is in the buffer, nothing is consumed up to 256 bytes and at least one byte is kept after |
| Xxh3.CatchUp | include/xxhash.h:6673-6679 | with fewer than 64 bytes buffered, the end of the buffer and its start are the last 64 bytes of the input |
| Xxh3.State.DigestLong | include/xxhash.h:6651-6685 | on an unchanged state, the lanes of the one-shot form |
| Xxh3.State.Digest | include/xxhash.h:6689-6702 | the digest is the one-shot hash of everything fed, in every mode, unless the 64-bit counter has wrapped to 240 or below, and what it is then |
| Xxh3.HashChunks | include/xxhash.h:7152-7202 | reset in any mode, feed any chunks, digest: the one-shot hash, at 64 or 128 bits |
| XxhForms.Mult32To64 | include/xxhash.h:4436-4446 | the product of two 32-bit words always fits 64 bits |
| XxhForms.NoOverflow | include/xxhash.h:4575-4578 | neither sum of partial products overflows 64 bits |
| XxhForms.OrIsAdd | include/xxhash.h:4579-4579 | joining the shifted word and the low bits by or adds them |
| XxhForms.Mult64To128 | include/xxhash.h:4569-4583 | high times 2^64 plus low is the product, for all inputs |
| XxhForms.Rolled | include/xxhash.h:4805-4812 | the descending loop computes rounds (len - 1) / 32 down to 0, all accesses in bounds |
| XxhForms.Unrolled | include/xxhash.h:4813-4828 | the nested tests compute the same rounds |
| XxhForms.Len17To128x64 | include/xxhash.h:4798-4831 | for every length 17 to 128 both builds give the same 64-bit hash |
| XxhForms.Len17To128x128 | include/xxhash.h:6886-6927 | for every length 17 to 128 both builds give the same 128-bit hash |
| XxhForms.OneRound64 | include/xxhash.h:4798-4831 | from 17 to 32 bytes the hash takes the first 16 bytes with the first 16 of the secret and the last 16 with the next |
| XxhForms.OneRound128 | include/xxhash.h:6886-6927 | and at 128 bits each half takes one of the two and the words of the other |
| XxhForms.Samples | include/xxhash.h:6886-6927 | the start, the halves and the end of the 128-bit hash on sample words |
| AdaptiveTimeout.EstimateInHull | src/adaptive_timeout.c:122-132 | the estimate stays in the hull of the initial value and all samples, and the deviation between 0 and the hull's width |
| AdaptiveTimeout.ConstantError | src/adaptive_timeout.c:122-126 | with a constant round trip the error is (1 - alpha)^n times the first, for all weights |
| AdaptiveTimeout.ConstantRtt | src/adaptive_timeout.c:122-132 | and the deviation a difference of two geometric sequences, for all weights |
| AdaptiveTimeout.EqualWeightsRtt | src/adaptive_timeout.c:122-132 | where the two are one, as for equal weights up to 1, the deviation after n samples is n beta abs(e) (1 - beta)^(n - 1) |
| AdaptiveTimeout.DefaultConstantRtt | include/adaptive_timeout.h:9-14 | with the default weights: error (7/8)^n e and deviation 2 abs(e) ((7/8)^n - (3/4)^n) |
| AdaptiveTimeout.DefaultTimeout | src/adaptive_timeout.c:136-146 | and the timeout r + (7/8)^n e + 3 abs(e) ((7/8)^n - (3/4)^n), rounded down, between 150 and 300 |
| AdaptiveTimeout.FirstSample | src/adaptive_timeout.c:107-146 | a first sample of 100 ms gives 225 ms |
| AdaptiveTimeout.TargetRounded | src/adaptive_timeout.c:136-146 | for any configuration the timeout t is at most estimate + factor * deviation and less than 1 below it, unless a bound holds it |
| AdaptiveTimeout.RoundedBounds | src/adaptive_timeout.c:136-146 | it is at the maximum exactly when that sum reaches it, and at the minimum exactly when the sum stays below the next integer |
| AdaptiveTimeout.MinRttExact | src/adaptive_timeout.c:118-118 | the recorded minimum is the least sample if and only if no sample was 0 or the last one is |
| AdaptiveTimeout.MaxRttIsGreatest | src/adaptive_timeout.c:119-119 | the recorded maximum is the greatest sample |
| AdaptiveTimeout.MissesBounds | src/adaptive_timeout.c:176-191 | any number of misses keeps the timeout between where it may start and the maximum |
| AdaptiveTimeout.MissesGrow | src/adaptive_timeout.c:176-191 | from a minimum of at least 2, k misses give the maximum or at least (4/3)^k times the minimum |
| AdaptiveTimeout.ReachesMaximumExactly | src/adaptive_timeout.c:176-191 | misses reach the maximum from the minimum if and only if the minimum is at least 2 or is the maximum, and then within maximum - minimum of them |
| AdaptiveTimeout.Timeout.constructor | src/adaptive_timeout.c:9-37 | no samples, and the initial timeout |
| AdaptiveTimeout.Timeout.Reset | src/adaptive_timeout.c:74-94 | the same again, whatever came before |
| AdaptiveTimeout.Timeout.RpcEnd | src/adaptive_timeout.c:107-154 | one sample is added to the history the statistics are those of; the timeout is the estimate plus the safety factor times the deviation, rounded down and kept between the bounds, and with proper weights not below the estimate rounded down unless at the maximum |
| AdaptiveTimeout.Timeout.RecordHeartbeat | src/adaptive_timeout.c:158-163 | the minimum timeout, the estimator unchanged |
| AdaptiveTimeout.Timeout.RecordVote | src/adaptive_timeout.c:167-172 | the minimum timeout, the estimator unchanged |
| AdaptiveTimeout.Timeout.CheckMissedHeartbeat | src/adaptive_timeout.c:176-191 | the timeout t becomes t + t / 2, at most the maximum; the bounds hold |
| AdaptiveTimeout.Timeout.GetStats | src/adaptive_timeout.c:207-224 | the average is the exact mean of the samples and lies between minimum and maximum when no sample is 0 |

## Left out

- Full log matching and leader completeness: the follower handler stores no entries and nothing advances `commit_index`.
- `raft_send_append_entries` and `raft_send_request_vote`, which are stubs that send nothing.
- `raft_check_election_timeout` and other wall-clock code.
- The runtime protocol of `thread_2` and `thread_3`, which uses fields the node struct does not have.
- Memory ownership, the growth of the entries array, mutex internals and thread creation; log data are values.
- `kv_store.c`, `spsc.c`, `client_ops.c`, `network.c`, io_uring and epoll: calls into foreign code.
- `kv_state_machine_apply`: `apply` is any function, and its result code, which is only printed, is dropped.
- Stopping the batcher inside `raft_become_follower`, which takes the node lock twice; stop is a step of its own.
- `match_index`, and starting the batcher inside `raft_become_leader`.
- Null pointers, failed allocations, system calls that fail or transfer only part of their bytes, and the exits they cause.
- The handshake and the elections are step systems over values: each step is a system call or a locked region.
- In `Mesh`, failed connects that are retried are not steps, and the listen backlog is never full.
- Rendering a decoded record as a text line, UTF-8 decoding of keys, and the comparison of the two headers, which only prints.
- SIMD variants, prefetching and compiler guards of xxHash, its 1 to 16 and 129 to 240 byte hashes, and any claim about hash quality.
- In `Xxh3` a custom secret is a value replaced as a whole; in `Xxh32` and `Xxh64` the four lanes are one value.
- Bytes.MaskIsAlignment: the alignments 4 and 8 of all callers, below the wrap; the function takes any power of two, and `Bytes.JumpToAlignment` any alignment.
- AdaptiveTimeout.Timeout.RpcEnd: real numbers and floor stand for `double` and its conversion; a negative target or one of 2^32 or more, whose conversion to 32 bits is undefined in C, is clamped like any other.
- AdaptiveTimeout.Timeout.CheckMissedHeartbeat: a maximum above two thirds of 2^32 could make the conversion undefined in C; the model rounds down.
