# A verified model of RaftRegistry

RaftRegistry is a key-value service on a Raft cluster, with its own byte buffers, serializer, RPC
client and HTTP parser. This project models those parts in Dafny and proves what each is for.

## The parts

* **Raft** (`Raft*.dfy`). `RaftLogSpec` and `RaftProtocol` state the log operations and the
  lock-held regions of a node as functions. `RaftLogClass` and `RaftNodeClass` hold the same as
  methods over the fields the program keeps (the retained entries only, the vote counter, the
  persisted fields), each proved equal to its function. `RaftSystem` is the cluster: nodes and the set
  of all messages ever sent, any of which may be delivered at any time, any number of times, or never.
  `RaftHistory` adds what proofs need to remember: votes, wins, the log each leader had,
  acknowledgements. `RaftElection` proves election safety, `RaftShape` what holds of logs in all runs,
  `RaftFrame`, `RaftAppend` and `RaftSafety` that each step keeps the invariant of commitment, and
  `RaftTheorems`, `RaftLimits` and `RaftRepaired` state the results about whole runs.
  `RaftLogLaws` has the laws of the log by itself, `RaftDelivery` the applier. `RaftProgress` proves that
  elections can be won and proposals committed, `RaftCatchUp` that a leader brings a follower up to its
  log round by round, and when it does not; `RaftPairs` that leaders and followers meet so in runs.
* **The key-value server** (`KV*.dfy`). `KVMachine` executes requests and keeps the table of last
  operations, `KVLaws` says what clients see of them, `KVReplica` is the applier over entries and
  snapshots, `KVExactlyOnce` is about repeated commands, `KVServerClass` the server with its fields,
  `KVTheorems` joins the server to the runs of the cluster.
* **The codec**. `ByteArrayClass` is the linked list of nodes with its cursor, proved to be the flat
  sequence of `ByteFlat`. `Varint` and `FixedInt` are the numbers, `SerialFormat` the format,
  `SerializerClass` the operators that move the cursor, `Persistence` the file of a node.
* **HTTP chunks** (`Chunk*.dfy`) and **the RPC client** (`Rpc*.dfy`): the resumable decoder of a
  chunked response, and the client that tells responses apart by sequence id.

Indices and terms are unbounded integers; where the width of a number matters (varints, chunk
sizes, sequence ids) it is written out.

## Careful runs

Election safety, log matching and leader append-only hold of all runs, whatever crashes and whatever
messages carry. The results about commitment are proved of *careful* runs: no node crashes with
committed entries that it has not persisted, and none accepts a message that does not vouch for all
that the node then commits. A message vouches for what the node had committed and for what its
entries reach; it is enough that the leader's commit index, or the follower's log, ends there, or that
the entries cut the follower's log. Both can be checked before the act, and bringing up
a follower that merely lacks entries, however many, is careful. Neither can be dropped: `RaftLostEntry` and
`RaftCutMessage` give runs of three nodes that are careless in one way only and end with different
entries committed under one index. A leader does not persist what it proposes until it steps down or
takes a snapshot, so a crash is careless when the leader has committed entries of its own term since. The
second carelessness takes a follower whose log goes on past what the message reaches, and a message cut
short of the leader's commit index by the limit on its entries (1000, or any `cap` in the model);
`RaftLimits` shows when that cannot happen. `RaftRepaired` puts both right and proves the same results of
every run.

## Rounds that do not end

Safety holds of a cluster that does nothing, so what the handlers let through is stated by itself: who gets
a vote, which counts decide, where a leader goes on after each answer. Two runs without a crash
show where a leader and a follower repeat themselves for ever. A follower hints at the index
before the first entry of a term, so one whose log conflicts with the leader's within the first term it has
kept hints at an index that the leader does not follow (`RaftStuckFollower.StuckIsReached`). And a snapshot that
ends at a peer's next index is accepted without moving it (`RaftStuckFollower.SnapshotLoopIsReached`).
`CatchesUpIff` shows that for a leader with its whole log, and no limit on its messages, the first is the only
way not to bring a follower up.

## Where the code departs from its comments

In each of these places the main model follows what the comments and the callers rely on, unless
the text says otherwise. Where a lemma is named it says exactly when the code as written does the same,
or shows where it does not. The lines without one have no meaning as written: they do not
compile or, as `toString` does, leave the result undefined.

| place | as written | here |
|---|---|---|
| raft_log.cpp:98 | inserts and does not erase the overlap | overwrites; `InsertKeepsOrderIff` |
| raft_log.cpp:137 | parenthesis makes the comparison an argument | compares terms; `HintAsPromisedIff` |
| raft_log.cpp:156 | `clearEntries` has no body | resets to one dummy, as raft_node.cpp:528 uses it |
| raft_node.cpp:204 | marks applied what a cut batch did not deliver | as written; `InOrderWithoutGaps` |
| raft_node.cpp:417 | bound is the last index, not the last new one | as written; `CommitVouchedForIff`, `CutMessageBreaksSafety` |
| raft_node.cpp:529-531 | compacts a log whose entry differs | as written; `SnapshotEntryKeptIff`, exception in `LeaderKnowledge` |
| raft_node.cpp:697 | appends without `persist()` | as written; `CrashKeepsCommittedIff`, `LostEntryBreaksSafety` |
| kvserver.cpp:159 | assigns the message type | compares it; `EntryTypeAsWrittenIff` |
| kvserver.cpp:232 | a duplicate is the last command only | as written; `EffectOnceIff`, `LateCopyRepeats` |
| kvserver.h:73 | the table's type does not hold responses | holds responses, as kvserver.cpp:62 and 186 use it |
| raft_node.cpp:275 | an accepted snapshot does not move a next index equal to its own | as written; `InstallRound`, `SnapshotForEver`, `SnapshotLoopIsReached` |
| raft_node.cpp:319, 447 | a hint of 0 and an answer of term 0 move nothing | as written; `CatchesUpIff`, `StuckIff`, `StuckIsReached` |
| byte_array.cpp:114, 119 | zigzag shifts the negated number | the formula in the comments; `ZigzagAsWrittenIff` |
| byte_array.cpp:149 | the shift is not assigned | assigned; `WriteAsWrittenIff`, `WriteAsWrittenRoundTripIff` |
| byte_array.cpp:272-279 | `nodeCap` is not reset | reset; `ByteDepartures.ReadAsWrittenIff` |
| byte_array.cpp:299 | swaps whatever the host is | swaps on the test of the writer; `FixedAsWrittenIff` |
| byte_array.cpp:344, 361 | reading goes on behind the last unit | stops there; `Varint.ReadAsWrittenIff` |
| byte_array.cpp:470-478 | `toString` returns nothing at its end | returns the string |
| byte_array.cpp:638 | steps past the last node | stops at the end; `SeekAsWrittenIff` |
| byte_array.cpp:666 | all capacity counts as available | what remains from the cursor on; `GrowAsWrittenIff` |
| rpc_client.cpp:463-469 | 32-bit ids come round | as written; `Demultiplexed` for ids not reused while outstanding, `MisdeliversIff`, `ReuseIsReached` |
| parse.cpp:635-657 | a size line may be empty | as written; `AcceptsExactly`, `TakenMoreThanProper` |

Missing semicolons, misspelt names and the like are read as what they were meant to be.

## Model

| member | source | states |
|---|---|---|
| `RaftElection.ElectionSafety` | RaftRegistry/raft/raft_node.cpp:120-170 | In every reachable state of every cluster, with messages lost, repeated, delayed and reordered and with nodes crashing at any point, two leaders of one term are the same node |
| `RaftElection.VotesInRuns` | RaftRegistry/raft/raft_node.cpp:353-402 | The inductive invariant behind it holds in all runs: a vote cast in a term binds its node for the rest of the term, unless `becomeFollower` cleared it after the term had been won by a majority without that node |
| `RaftElection.LosingCandidateKeepsVotes` | RaftRegistry/raft/raft_node.cpp:568-580 | Clearing `m_votedFor` within a term, when a losing candidate meets the leader, keeps that invariant |
| `RaftElection.OneWinPerTerm` | RaftRegistry/raft/raft_node.cpp:153-160 | A majority of votes in a term that has a leader can only be for that leader: two majorities share a node |
| `RaftElection.WonElection` | RaftRegistry/raft/raft_node.cpp:140-168 | When a vote reply makes a candidate leader, the term had no leader, and those counted are a majority of the cluster, each of which voted for it |
| `RaftTheorems.StateMachineSafety` | RaftRegistry/raft/raft_node.cpp:216-351 | Over every careful run and any two moments of it: what one node has committed at one moment and another at the other agrees, term and data, on every index both have committed |
| `RaftTheorems.LeaderHasCommitted` | RaftRegistry/raft/raft_node.cpp:335-349 | Leader completeness: in every careful run what a node has committed is in the log of every leader of that or a later term, then and later |
| `RaftTheorems.LogMatchingInRuns` | RaftRegistry/raft/raft_node.cpp:407-472 | Log matching, in every run, whatever crashes and wherever messages stop short: two logs that hold the same term at an index hold the same entries up to it, term and data |
| `RaftTheorems.LeaderAppendOnly` | RaftRegistry/raft/raft_node.cpp:684-703 | In every run: between any two moments of one leadership the leader's log has only been extended |
| `RaftTheorems.LeaderKnowledge` | RaftRegistry/raft/raft_node.cpp:302-330 | A peer in the leader's term agrees with the leader up to its match index, though the request's term is not checked again; the one exception is a peer that answered a snapshot through lines 529-531 |
| `RaftTheorems.NoNodeExits` | RaftRegistry/raft/raft_log.cpp:43-59 | At any moment of a careful run no AppendEntries in flight, whatever it carries, makes its receiver exit: a committed entry is never contradicted |
| `RaftTheorems.LogsInRuns` | RaftRegistry/raft/raft_node.cpp:120-703 | The inductive log invariant (terms anchored in their leaders' logs, commit indices safe, next indices within the log, messages and acknowledgements true) holds after every careful run |
| `RaftLimits.CarefulWithinLimitIff` | RaftRegistry/raft/raft_log.cpp:219-224 | With no limit on the entries of a message, or with no more commands proposed than the limit, a run is careful if and only if its crashes lose nothing that is committed |
| `RaftRepaired.RepairedStateMachineSafety` | RaftRegistry/raft/raft_node.cpp:407-472 | With `Propose` persisting and the deferred commit bounded by the last new entry: in every run, whatever crashes, what two nodes have committed at any two moments agrees |
| `RaftRepaired.RepairedLeaderHasCommitted` | RaftRegistry/raft/raft_node.cpp:335-349 | And what a node has committed is in the log of every leader of that or a later term |
| `RaftRepaired.RepairedLeaderKnowledge` | RaftRegistry/raft/raft_node.cpp:302-330 | And a peer in the leader's term agrees with it up to its match index, but for one that took lines 529-531 |
| `RaftRepaired.RepairedNoNodeExits` | RaftRegistry/raft/raft_log.cpp:43-59 | And no AppendEntries in flight makes its receiver exit |
| `RaftRepaired.RepairedCrashKeepsLog` | RaftRegistry/raft/raft_node.cpp:684-703 | And a crash loses no entry |
| `RaftRepaired.BoundedIsCapped` | RaftRegistry/raft/raft_node.cpp:409-421 | The repaired handler does to any message what the handler as written does to it with its commit index bounded |
| `RaftShape.ShapeInRuns` | RaftRegistry/raft/raft_node.cpp:120-703 | The inductive invariant of all runs: logs, saved logs and snapshots hold what the leaders of their entries wrote, a leader's log is that of its term, messages that can match carry a stretch of it, and what a node has persisted is its log but for entries of its own leadership |
| `RaftTheorems.CrashKeepsCommittedIff` | RaftRegistry/raft/raft_node.cpp:684-703 | At any moment of any run: a crash keeps what the node has committed if and only if that has been persisted, and it loses nothing but entries of the node's own leadership |
| `RaftHistory.LeaderCompleteness` | RaftRegistry/raft/raft_log.cpp:242-249 | An entry of the current term that a majority has acknowledged is in the log of every leader of a later term |
| `RaftHistory.LogMatching` | RaftRegistry/raft/raft_log.cpp:234-240 | Two logs that are anchored in the logs of their leaders and share a term at an index share everything up to it |
| `RaftHistory.TwoQuorumsMeet` | RaftRegistry/raft/raft_node.cpp:155-157 | Two sets of more than half the nodes have a node in common |
| `RaftLostEntry.LostEntryBreaksSafety` | RaftRegistry/raft/raft_node.cpp:690-701 | A run in which a leader crashes with an entry it proposed and never persisted, and at whose end two nodes have committed different entries under one index |
| `RaftCutMessage.CutMessageBreaksSafety` | RaftRegistry/raft/raft_node.cpp:409-421 | A run without a crash, one entry a message, at whose end two nodes have committed different entries under one index: the follower committed past what the message vouched for |
| `RaftDepartures.CommitVouchedForIff` | RaftRegistry/raft/raft_node.cpp:417 | The follower commits nothing beyond what it had committed and the last new entry if and only if, before the call, the leader's commit index lies within that, or the follower's last index does, or the entries conflict with the follower's log and cut it |
| `RaftDepartures.CommitsStaleEntry` | RaftRegistry/raft/raft_node.cpp:417 | A message on which a stale entry is committed |
| `RaftDepartures.InsertKeepsOrderIff` | RaftRegistry/raft/raft_log.cpp:95-99 | `insert` keeps the indices contiguous if and only if the new entries start right behind the log or replace all of it |
| `RaftDepartures.HintAsPromisedIff` | RaftRegistry/raft/raft_log.cpp:137 | For every log and every index the hint as parenthesised is the promised one exactly in the listed cases: never compacted, compacted to 1, and compacted further |
| `RaftDepartures.SnapshotEntryKeptIff` | RaftRegistry/raft/raft_node.cpp:526-531 | After a snapshot above the commit index the log holds the snapshot's last entry if and only if it ended before the snapshot index or held that entry already |
| `RaftDepartures.KeepsDifferingEntry` | RaftRegistry/raft/raft_node.cpp:529-531 | A snapshot on which that branch keeps an entry that differs, while the answer does not say so |
| `RaftLogClass.RaftLog.constructor` | RaftRegistry/raft/raft_log.cpp:27-36 | A log with nothing persisted holds the dummy entry alone, nothing committed or applied |
| `RaftLogClass.RaftLog.Load` | RaftRegistry/raft/raft_log.cpp:11-26 | A log read back from what was persisted stands for the whole log it was cut from, with what precedes its first entry applied |
| `RaftLogClass.RaftLog.FirstIndex` | RaftRegistry/raft/raft_log.cpp:158-161 | Computed from the front of the retained entries, it is that of the whole log |
| `RaftLogClass.RaftLog.LastIndex` | RaftRegistry/raft/raft_log.cpp:163-165 | The same for the last index |
| `RaftLogClass.RaftLog.Term` | RaftRegistry/raft/raft_log.cpp:206-217 | The term of the whole log at an index that is retained, -1 elsewhere |
| `RaftLogClass.RaftLog.IsUpToDate` | RaftRegistry/raft/raft_log.cpp:230-232 | The vote check on the retained entries is the one on the whole log |
| `RaftLogClass.RaftLog.MatchLog` | RaftRegistry/raft/raft_log.cpp:234-240 | The same for the match of an index and a term |
| `RaftLogClass.RaftLog.FindConflict` | RaftRegistry/raft/raft_log.cpp:108-121 | The loop finds the first entry the log does not hold, 0 if it holds all |
| `RaftLogClass.RaftLog.FindConflictHint` | RaftRegistry/raft/raft_log.cpp:123-141 | The loop, comparing terms as line 136 says, finds the hint of the specification |
| `RaftLogClass.RaftLog.Append` | RaftRegistry/raft/raft_log.cpp:74-102 | Erased and stored entries change as if the new ones overwrote the whole log from their first index; at or below the commit index the process exits and nothing changes |
| `RaftLogClass.RaftLog.Push` | RaftRegistry/raft/raft_log.cpp:104-106 | One entry is added to the whole log |
| `RaftLogClass.RaftLog.MaybeAppend` | RaftRegistry/raft/raft_log.cpp:38-72 | The whole log, the commit index and the result are those of the specification, in each of its three outcomes |
| `RaftLogClass.RaftLog.CommitTo` | RaftRegistry/raft/raft_log.cpp:183-191 | The commit index moves up, never down and never past the log |
| `RaftLogClass.RaftLog.AppliedTo` | RaftRegistry/raft/raft_log.cpp:193-204 | The applied index moves only between itself and the commit index |
| `RaftLogClass.RaftLog.MaybeCommit` | RaftRegistry/raft/raft_log.cpp:242-249 | Commits an index exactly when it is above the commit index and has the term |
| `RaftLogClass.RaftLog.Slice` | RaftRegistry/raft/raft_log.cpp:251-273 | The entries asked for, cut to the limit, with their indices; it exits exactly when the range is not retained |
| `RaftLogClass.RaftLog.NextEntries` | RaftRegistry/raft/raft_log.cpp:143-149 | The next batch to be applied |
| `RaftLogClass.RaftLog.EntriesFrom` | RaftRegistry/raft/raft_log.cpp:219-224 | The entries from an index on, cut to the limit; it exits exactly for an index that is compacted |
| `RaftLogClass.RaftLog.ClearEntries` | RaftRegistry/raft/raft_log.cpp:156 | One dummy remains, which stands for everything the installed snapshot folds |
| `RaftLogClass.RaftLog.CreateSnapshot` | RaftRegistry/raft/raft_log.cpp:279-302 | A snapshot is made exactly of a committed index that is not compacted, with the term there |
| `RaftLogClass.RaftLog.Compact` | RaftRegistry/raft/raft_log.cpp:304-318 | Erasing the entries up to the index leaves the whole log as it was |
| `RaftLogSpec.Log.FirstConflict` | RaftRegistry/raft/raft_log.cpp:108-121 | Everything `findConflict` passes over matches, what it stops at does not |
| `RaftLogSpec.Log.ScanBack` | RaftRegistry/raft/raft_log.cpp:134-139 | Everything the walk passes over has the term and is retained, and what it stops at has another term or is the snapshot |
| `RaftLogLaws.AppendCases` | RaftRegistry/raft/raft_log.cpp:38-72 | `maybeAppend` refuses exactly when the previous entry does not match, and exits exactly when an entry of the message contradicts a committed one |
| `RaftLogLaws.AppendContract` | RaftRegistry/raft/raft_log.cpp:38-72 | The log is kept below the first conflict and is the message from there on, or kept whole when there is none; the commit index rises to the smaller of the leader's and the last new index, or stays |
| `RaftLogLaws.AppendAgrees` | RaftRegistry/raft/raft_log.cpp:38-72 | Afterwards the log matches the message at every index it carries, nothing committed has changed, commit has not fallen and the log is well-formed |
| `RaftLogLaws.AppendTwice` | RaftRegistry/raft/raft_log.cpp:38-72 | The same message again changes nothing |
| `RaftLogLaws.OlderMessage` | RaftRegistry/raft/raft_log.cpp:38-72 | A message of the same leader that reaches no further than one already taken changes no entry |
| `RaftLogLaws.IndicesMoveIff` | RaftRegistry/raft/raft_log.cpp:183-204 | The commit index moves up only, to an index of the log, and the applied index up only, to a committed one; any other index moves nothing |
| `RaftLogLaws.CompactionKeeps` | RaftRegistry/raft/raft_log.cpp:304-318 | Compaction up to `i` keeps the last index, every term from `i` on, every vote check, and the next batch if `i` has been applied |
| `RaftLogLaws.ConflictCommutes` | RaftRegistry/raft/raft_log.cpp:108-121 | Compaction does not change the conflict of entries above it |
| `RaftLogLaws.CompactionCommutes` | RaftRegistry/raft/raft_log.cpp:38-72 | Compacting committed entries commutes with taking entries that start at or above them, in every outcome |
| `RaftLogLaws.CommitCommutes` | RaftRegistry/raft/raft_log.cpp:242-249 | And with counting a majority |
| `RaftLogLaws.HintAfterCompaction` | RaftRegistry/raft/raft_log.cpp:123-141 | The hint after a compaction is the hint before it, but never below the snapshot: the one place where compaction shows |
| `RaftLogLaws.BacktrackingEnds` | RaftRegistry/raft/raft_node.cpp:317-324 | Every rejection with a non-zero hint lowers the next index, so there are fewer of them than its value |
| `RaftLogLaws.HintSkipsOneTerm` | RaftRegistry/raft/raft_log.cpp:123-141 | Everything a hint within the log skips has the term of the rejected index, and where it stops has another or is the snapshot |
| `RaftProgress.OneIsUpToDate` | RaftRegistry/raft/raft_log.cpp:230-232 | Of any two logs one is up to date with the other, and both are only if they end in the same term and index |
| `RaftProgress.GrantedIff` | RaftRegistry/raft/raft_node.cpp:353-402 | A vote is granted if and only if the node may still give it in that term and the candidate's log ends in a later term, or in the same term at no lower an index; granted, the vote and the term are saved |
| `RaftProgress.GrantsTheStronger` | RaftRegistry/raft/raft_node.cpp:365-395 | A node that may vote grants its vote to every candidate whose own vote it could not get |
| `RaftProgress.SomeoneIsGranted` | RaftRegistry/raft/raft_log.cpp:230-232 | Among any nodes, a majority or not, there is one whose request all of them grant, in every term later than theirs |
| `RaftProgress.LeadsIff` | RaftRegistry/raft/raft_node.cpp:153-160 | In clusters of every size: a granted vote makes a candidate leader if and only if those counted are then more than half of the cluster; the leader expects nothing of any peer |
| `RaftProgress.ElectionIsCounted` | RaftRegistry/raft/raft_node.cpp:140-168 | After any answers in any order, none of a later term, a candidate leads if and only if somebody has voted for it and its voters and itself are more than half; a cluster of one never has a leader |
| `RaftProgress.ElectedIff` | RaftRegistry/raft/raft_node.cpp:612-627 | The same from the first timeout on, for any candidate that the nodes asked can vote for |
| `RaftProgress.SomeoneCanWin` | RaftRegistry/raft/raft_node.cpp:120-170 | If more than half of the cluster can answer, one of those nodes is elected once its term is above theirs, in whatever order they answer |
| `RaftProgress.CommitsIff` | RaftRegistry/raft/raft_node.cpp:335-349 | In clusters of every size the count raises the commit index to `i` if and only if the leader and the peers known to hold `i` are more than half, `i` lies above the commit index and in the log, and its term is the current one; otherwise it changes nothing |
| `RaftProgress.CommittedIffCopied` | RaftRegistry/raft/raft_node.cpp:325-349 | An entry of the leader's term is committed as soon as the peers that have confirmed it are with the leader more than half of the cluster, and no sooner, in whatever order and however often they answer |
| `RaftProgress.ProposedIsFresh` | RaftRegistry/raft/raft_node.cpp:684-703 | What a leader proposes is such an entry |
| `RaftProgress.LeastHolderCommits` | RaftRegistry/raft/raft_node.cpp:332-349 | With confirmations that reach differently far, that of the peer of a majority that holds least commits what it holds |
| `RaftProgress.LaterTermWins` | RaftRegistry/raft/raft_node.cpp:353-500 | A request brings a node to the later of the two terms, out of office if the term is new; one of an earlier term is refused and changes nothing but what is saved |
| `RaftProgress.LaterTermDeposes` | RaftRegistry/raft/raft_node.cpp:162-168 | An answer that tells of a later term puts a candidate or a leader out of office, saved, without a vote given; an answer to a request of an earlier term does nothing |
| `RaftProgress.LeaderKnown` | RaftRegistry/raft/raft_node.cpp:431-439 | A node that takes a leader's messages knows a leader: the sender, if the term is new to it, it was a candidate, or it knew none |
| `RaftProgress.CommitLearnt` | RaftRegistry/raft/raft_node.cpp:409-421 | An accepted message brings the commit index up to the leader's, as far as the log then reaches, and never down |
| `RaftProgress.RestartKeeps` | RaftRegistry/raft/raft_node.cpp:81-104 | After `persist` and a restart the term, the vote, the commit index and the entries are those from before |
| `RaftProgress.SnapshotTakenIff` | RaftRegistry/raft/raft_node.cpp:657-668 | A snapshot is taken at exactly the committed indices behind the last one; the log then begins there and no entry changes |
| `RaftProgress.SnapshotSaved` | RaftRegistry/raft/raft_node.cpp:670-677 | An installed snapshot is saved whatever its index, and the log begins there if it reaches so far |
| `RaftCatchUp.SendsFrom` | RaftRegistry/raft/raft_node.cpp:216-288 | A leader sends a peer behind its log's base the snapshot it has saved, and any other exactly the entries from the next index on, as many as the limit lets through; who does not lead, or has no snapshot to send, sends nothing |
| `RaftCatchUp.RefusedRound` | RaftRegistry/raft/raft_node.cpp:317-324 | After a round that is refused the leader goes on at the follower's hint, which is lower; if the follower's log was too short its last entry is compared next; a hint of 0 is not followed |
| `RaftCatchUp.ComparedAfterRefusal` | RaftRegistry/raft/raft_node.cpp:216-288 | The next message compares the entry just before the hint |
| `RaftCatchUp.RefusalsEnd` | RaftRegistry/raft/raft_node.cpp:317-324 | Refused rounds in a row, whatever happens to both logs in between, each lower the next index and are fewer than its value |
| `RaftCatchUp.AcceptedRound` | RaftRegistry/raft/raft_node.cpp:325-330 | After a round that is accepted the leader goes on behind the last entry sent and knows the follower to hold that one; the follower has the leader's log up to there and nothing else committed |
| `RaftCatchUp.CatchesUp` | RaftRegistry/raft/raft_node.cpp:216-351 | Round by round the follower comes to have the leader's whole log, in at most as many rounds as the next index and the length of the log add up to, unless it needs a snapshot, a message makes it commit what the message does not vouch for, or the two are stuck |
| `RaftPairs.PairedInRuns` | RaftRegistry/raft/raft_node.cpp:216-351 | At any moment of a careful run a leader and any peer that has not heard of a later term, and has compacted no more than it has committed, are as the rounds want them: the leader has what the peer has committed, and equal terms mean equal beginnings |
| `RaftCatchUp.StuckIff` | RaftRegistry/raft/raft_log.cpp:123-141 | Stuck is: the compared entry is one the follower has compacted, or it differs and all that the follower has kept below it is of the same term, so that the hint is the index it has compacted to |
| `RaftCatchUp.StuckForEver` | RaftRegistry/raft/raft_node.cpp:319 | Two that are stuck stay so in any number of rounds, and the follower's log does not change |
| `RaftCatchUp.CatchesUpIff` | RaftRegistry/raft/raft_node.cpp:302-330 | A leader that has compacted nothing brings a follower up to its whole log if and only if no round leaves the two stuck |
| `RaftStuckFollower.StuckIsReached` | RaftRegistry/raft/raft_node.cpp:319 | A run of three nodes without a crash comes to a leader and a follower that are stuck over one committed entry |
| `RaftStuckFollower.NeverRepaired` | RaftRegistry/raft/raft_node.cpp:319 | Then the follower keeps its own entry, and does not get the committed one, in any number of rounds |
| `RaftCatchUp.InstallRound` | RaftRegistry/raft/raft_node.cpp:271-277 | After a snapshot above the next index the leader goes on behind it and sends entries from there; at the next index itself it does not move and sends the snapshot again |
| `RaftCatchUp.InstalledMatches` | RaftRegistry/raft/raft_node.cpp:504-540 | What each way through the installation leaves, and that the next message finds its previous entry if and only if the follower had not compacted further and did not keep an entry that differs |
| `RaftCatchUp.SnapshotForEver` | RaftRegistry/raft/raft_node.cpp:275 | Once the snapshot ends at the next index every round sends the snapshot and none an entry |
| `RaftStuckFollower.SnapshotLoopIsReached` | RaftRegistry/raft/raft_node.cpp:275 | A run of three nodes without a crash comes to that with one command committed: the peer has installed the snapshot, the leader knows that it holds the entry, and it still sends the snapshot |
| `RaftDelivery.OneRoundDelivers` | RaftRegistry/raft/raft_node.cpp:173-206 | A round of the applier hands on what is committed and not applied, as far as the limit lets it, and marks all of it; a second finds nothing to do |
| `RaftDelivery.InOrderWithoutGaps` | RaftRegistry/raft/raft_node.cpp:173-206 | Over any run of appends, commits, applier rounds and compactions, during a round too up to the commit index it has seen, the entries handed on are the committed ones in index order, each once, if and only if no batch was cut short of the commit index that line 204 then marks |
| `RaftDelivery.StepDelivers` | RaftRegistry/raft/raft_node.cpp:189-204 | No step but a cut batch opens a gap, and no later step closes one |
| `RaftNodeClass.RaftNode.constructor` | RaftRegistry/raft/raft_node.cpp:48-104 | A node with nothing persisted is a follower of term 0 |
| `RaftNodeClass.RaftNode.Restarted` | RaftRegistry/raft/raft_node.cpp:81-104 | A node started from what an earlier life persisted has its term, vote, entries and commit index, and nothing else of it |
| `RaftNodeClass.RaftNode.Persist` | RaftRegistry/raft/raft_node.cpp:649-655 | Term, vote, commit index and retained entries are saved, and stand for the whole log |
| `RaftNodeClass.RaftNode.BecomeFollower` | RaftRegistry/raft/raft_node.cpp:568-580 | State, term, cleared vote and leader, persisted |
| `RaftNodeClass.RaftNode.BecomeCandidate` | RaftRegistry/raft/raft_node.cpp:582-589 | The next term with a vote for itself, persisted |
| `RaftNodeClass.RaftNode.BecomeLeader` | RaftRegistry/raft/raft_node.cpp:591-610 | Every peer's next index is behind the log and its match index 0, persisted |
| `RaftNodeClass.RaftNode.ResetIndices` | RaftRegistry/raft/raft_node.cpp:603-606 | The loop over the peers sets all of both maps and nothing else |
| `RaftNodeClass.RaftNode.ElectionTimeout` | RaftRegistry/raft/raft_node.cpp:612-627 | A node that does not lead starts an election of the next term; a leader does nothing |
| `RaftNodeClass.RaftNode.HandleVoteReply` | RaftRegistry/raft/raft_node.cpp:136-168 | The counter is the number of distinct nodes that granted, and the node changes as the protocol step does |
| `RaftNodeClass.RaftNode.HandleRequestVote` | RaftRegistry/raft/raft_node.cpp:353-402 | Votes, steps down or refuses, persisted, with the reply of the protocol step |
| `RaftNodeClass.RaftNode.HandleAppendEntries` | RaftRegistry/raft/raft_node.cpp:407-472 | The term rules, the log, the deferred commit, persistence and the reply are those of the protocol step, or the process exits as it does |
| `RaftNodeClass.RaftNode.CommitRound` | RaftRegistry/raft/raft_node.cpp:335-349 | The loop, which commits as soon as the count passes half, ends as one decision on the number of all peers that hold the index |
| `RaftNodeClass.RaftNode.HandleAppendReply` | RaftRegistry/raft/raft_node.cpp:302-349 | Steps down, ignores, backtracks or advances as the protocol step does |
| `RaftNodeClass.RaftNode.HandleInstallSnapshot` | RaftRegistry/raft/raft_node.cpp:477-540 | Each of the five ways through it is that of the protocol step |
| `RaftNodeClass.RaftNode.HandleInstallReply` | RaftRegistry/raft/raft_node.cpp:249-270 | Match and next index move up only |
| `RaftNodeClass.RaftNode.Replicate` | RaftRegistry/raft/raft_node.cpp:216-288 | Sends a snapshot, entries or nothing, and never asks the log for what it does not retain |
| `RaftNodeClass.RaftNode.Propose` | RaftRegistry/raft/raft_node.cpp:684-703 | A leader's log gains one entry with the next index, which is what it returns; nothing is persisted |
| `RaftNodeClass.RaftNode.PersistStateAndSnapshot` | RaftRegistry/raft/raft_node.cpp:657-668 | The log is compacted and the snapshot saved, if the index may be |
| `RaftNodeClass.RaftNode.PersistSnapshot` | RaftRegistry/raft/raft_node.cpp:670-677 | The installed snapshot is saved and the log compacted to it |
| `KVServerClass.KVServer.constructor` | RaftRegistry/kvraft/kvserver.cpp:41-47 | A server starts with what `readSnapshot` makes of the saved snapshot, or empty |
| `KVServerClass.KVServer.IsDuplicateRequest` | RaftRegistry/kvraft/kvserver.cpp:227-233 | Tells whether the last command of the client is this one |
| `KVServerClass.KVServer.ApplyLogToStateMachine` | RaftRegistry/kvraft/kvserver.cpp:242-278 | The map and the response are those of the five operations, and an unknown operation exits with nothing changed |
| `KVServerClass.KVServer.Restore` | RaftRegistry/kvraft/kvserver.cpp:213-225 | Both maps are cleared and read from the bytes through a serializer; when that throws, what has been read stays |
| `KVServerClass.ReadMap` | RaftRegistry/rpc/serializer.h:394-404 | The loop leaves in an empty map the elements that could be read, all of them if and only if it does not throw, and then the cursor stands behind them |
| `KVServerClass.KVServer.HandleMessage` | RaftRegistry/kvraft/kvserver.cpp:143-204 | One round of the applier is one step of the replica model: snapshots, empty, outdated, repeated and new commands |
| `KVServerClass.KVServer.Applier` | RaftRegistry/kvraft/kvserver.cpp:143-204 | The loop handles the messages of the channel one after the other |
| `KVLaws.GetAnswers` | RaftRegistry/kvraft/kvserver.cpp:248-255 | A GET answers OK and the value of a key that has one and NO_KEY for one that has none, and changes nothing |
| `KVLaws.GetAfterPut` | RaftRegistry/kvraft/kvserver.cpp:256-258 | After a PUT a GET of its key answers the value put, whatever was there before |
| `KVLaws.GetAfterAppend` | RaftRegistry/kvraft/kvserver.cpp:259-261 | After an APPEND it answers the old value, or nothing, with the new one behind it |
| `KVLaws.GetAfterDelete` | RaftRegistry/kvraft/kvserver.cpp:262-269 | After a DELETE the key is gone, and the answer says whether it had been there |
| `KVLaws.GetAfterClear` | RaftRegistry/kvraft/kvserver.cpp:270-272 | After a CLEAR every key is gone |
| `KVLaws.OtherKeysStay` | RaftRegistry/kvraft/kvserver.cpp:247-277 | No operation but CLEAR changes what a GET of another key answers |
| `KVLaws.AnswersDecide` | RaftRegistry/kvraft/kvserver.cpp:247-255 | Two maps of which every GET answers the same are the same |
| `KVLaws.KnownIff` | RaftRegistry/kvraft/kvserver.cpp:273-276 | Exactly the five operations are known |
| `KVLaws.GetRemembers` | RaftRegistry/kvraft/kvserver.cpp:242-278 | Behind any requests a GET answers what the requests to its key since the last CLEAR make of it |
| `KVLaws.ServedGet` | RaftRegistry/kvraft/kvserver.cpp:173-188 | Behind any log the server answers a GET with what the requests that took effect make of the key, and with what first occurrences do if copies were not separated |
| `KVReplica.EntryTypeAsWrittenIff` | RaftRegistry/kvraft/kvserver.cpp:159 | With the type assigned, entries take the exiting branch: a message is handled right if and only if it is a snapshot, or a new entry that is no request or a new request with an unknown operation |
| `KVReplica.StaysInStep` | RaftRegistry/kvraft/kvserver.cpp:146-203 | A message that fits the log keeps a server equal to the fold of the commands up to its position, and it exits exactly where that fold does |
| `KVReplica.ReplicaAgreement` | RaftRegistry/kvraft/kvserver.cpp:143-204 | For every in-order mix of entries and snapshots `m_data` and `m_lastOperation` are the fold of the log up to where the messages end |
| `KVReplica.RestoredAgreesWithReplayed` | RaftRegistry/kvraft/kvserver.cpp:206-233 | A server restored from a snapshot and one that replayed everything agree in state, in every later duplicate decision, and in the answer to the next command |
| `KVReplica.StateIsFoldOfApplied` | RaftRegistry/kvraft/kvserver.cpp:161-172 | The state is the fold of the first `m_lastApplied` commands: the entries passed over without moving it are empty |
| `KVReplica.StartsInStep` | RaftRegistry/kvraft/kvserver.cpp:41-47 | A new server, and one started from a snapshot, begin in step |
| `KVSnapshot.SnapshotRoundTrip` | RaftRegistry/kvraft/kvserver.cpp:206-225 | `readSnapshot` of what `saveSnapshot` writes, with the maps walked in any order, is the saved state |
| `KVSnapshot.GottenAll` | RaftRegistry/rpc/serializer.h:394-404 | When reading does not throw, the elements read one by one are those of the format |
| `KVMachine.RequestRoundTrip` | RaftRegistry/kvraft/command.h:106-116 | The server that applies a request reads back the request that was proposed |
| `KVMachine.RequestBytes` | RaftRegistry/kvraft/command.h:106-116 | A request byte by byte: the number of the operation, key and value with their lengths, the two ids |
| `KVMachine.PutBytes` | RaftRegistry/kvraft/command.h:73-79 | A PUT is operation 1: the seven bytes of one |
| `KVExactlyOnce.ExactlyOnce` | RaftRegistry/kvraft/kvserver.cpp:173-188 | For any log in which no client has another mutating command between two copies of one, the final map is that of the first occurrences alone, and every copy is answered as the first was |
| `KVExactlyOnce.EffectOnceIff` | RaftRegistry/kvraft/kvserver.cpp:227-233 | Each (client, command) takes effect exactly once, at its first occurrence, if and only if the log is grouped in that way |
| `KVExactlyOnce.RisingIsGrouped` | RaftRegistry/kvraft/kvclient.cpp:96-134 | Logs in which each client's mutating command ids never fall, with clients interleaved in any way, are grouped |
| `KVExactlyOnce.TableTracks` | RaftRegistry/kvraft/kvserver.cpp:183-187 | The table always holds each client's last mutating command and the answer it got |
| `KVExactlyOnce.DataIsPlain` | RaftRegistry/kvraft/kvserver.cpp:173-188 | For every log the map is what executing just the requests that take effect gives |
| `KVExactlyOnce.CopiesAnswered` | RaftRegistry/kvraft/kvserver.cpp:178-180 | Every copy in a grouped log gets the first occurrence's response |
| `KVExactlyOnce.LateCopyRepeats` | RaftRegistry/kvraft/kvserver.cpp:232 | A log in which a copy behind the client's next command takes effect again, since ids are compared for equality |
| `KVTheorems.FoldIsPlay` | RaftRegistry/kvraft/kvserver.cpp:159-188 | The fold of a log is what serving its requests one after the other gives |
| `KVTheorems.ServerExactlyOnce` | RaftRegistry/kvraft/kvserver.cpp:143-204 | The map of a server, however it came by its state, is that of the first occurrences in its log |
| `KVTheorems.AnsweredAsServed` | RaftRegistry/kvraft/kvserver.cpp:161-203 | A server in step answers the next command as serving the commands of the log one after the other would, and ends exactly where that has no answer |
| `KVTheorems.GetAnswered` | RaftRegistry/kvraft/kvserver.cpp:173-188 | A GET is answered with what the commands that took effect make of its key |
| `KVTheorems.DeliveryKeepsInStep` | RaftRegistry/raft/raft_node.cpp:173-206 | With whole batches, what the Raft applier delivers is in order, and a server in step with what had been applied is in step with what has been delivered |
| `KVTheorems.ReplicatedAgreement` | RaftRegistry/kvraft/kvserver.cpp:143-204 | Over careful runs of the cluster: two servers anywhere, at any two moments, that have taken committed entries to the same position have the same map and table, and the one behind is a stage of the other |
| `Varint.ZigzagInterleaves` | RaftRegistry/common/byte_array.cpp:112-120 | The shift formula in the comments interleaves: n becomes 2n, or -2n-1 when negative |
| `Varint.ZigzagBijection` | RaftRegistry/common/byte_array.cpp:112-130 | Zigzag is a bijection between signed and unsigned numbers, for 32 and 64 bits |
| `Varint.ZigzagKeepsSmall` | RaftRegistry/common/byte_array.cpp:109-120 | A code is below 2b exactly when the number lies in [-b, b) |
| `Varint.ZigzagAsWrittenIff` | RaftRegistry/common/byte_array.cpp:112-120 | As written zigzag is undone for exactly four numbers of each width: zero, the least, and plus and minus a quarter of the range |
| `Varint.VarintLength` | RaftRegistry/common/byte_array.cpp:139-171 | The encoding has as many bytes as the value has groups of seven bits, at least one |
| `Varint.VarintIs` | RaftRegistry/common/byte_array.cpp:139-171 | A sequence of bytes is the encoding of a number if and only if its low seven bits, the first byte least, add up to it, the top bit is set in all bytes but the last, and no zero ends it needlessly |
| `Varint.VarintFits` | RaftRegistry/common/byte_array.cpp:139-171 | At most 5 bytes for 32 bits and 10 for 64 |
| `Varint.VarintRoundTrip` | RaftRegistry/common/byte_array.cpp:337-367 | Every 32-bit and 64-bit value is read back, and exactly its bytes are consumed, whatever follows |
| `Varint.ReadsAnything` | RaftRegistry/common/byte_array.cpp:337-367 | Of any bytes a reader takes those up to the first without the top bit, no more than a number of the width can have, and what their low seven bits add up to modulo the width; it fails exactly when the bytes end before that |
| `Varint.VarintTruncated` | RaftRegistry/common/byte_array.cpp:337-367 | The beginning of an encoding is not read as a number |
| `Varint.ReadAsWrittenIff` | RaftRegistry/common/byte_array.cpp:337-367 | Without stopping at the last unit a number is read back, and exactly its bytes consumed, if and only if its encoding has the greatest length |
| `Varint.WriteAsWrittenIff` | RaftRegistry/common/byte_array.cpp:139-152 | With the shifted value thrown away the units written are those of the format if and only if the value is below 0x80 |
| `Varint.WriteAsWrittenRoundTripIff` | RaftRegistry/common/byte_array.cpp:139-152 | And exactly those values are read back with nothing left over; 0x80 is the first that is not |
| `Varint.VarintUnits` | RaftRegistry/common/byte_array.cpp:139-152 | The loop, shifting in place as line 149 should, collects the encoding in at most 5 or 10 units |
| `FixedInt.SameOnEveryHost` | RaftRegistry/common/byte_array.h:68-75 | `WriteFInt` lays down the integer in the byte order of the array on every host |
| `FixedInt.WrittenIff` | RaftRegistry/common/byte_array.h:68-75 | Bytes are what is written if and only if they have the value with the first byte counting most, or least in a little-endian array, on every host |
| `FixedInt.FixedRoundTrip` | RaftRegistry/common/byte_array.cpp:296-303 | So one host reads what another wrote, with the swap on the same test |
| `FixedInt.FixedAsWrittenIff` | RaftRegistry/common/byte_array.cpp:299 | Swapping on line 299's test gives the value back if and only if the host is big-endian or the value is its own mirror image |
| `ByteFlat.WriteContents` | RaftRegistry/common/byte_array.cpp:38-75 | What a write does to contents, cursor and what is readable, whatever the node size and the capacity |
| `ByteFlat.WriteBackRead` | RaftRegistry/common/byte_array.cpp:38-75 | Setting the position back, the bytes written are read |
| `ByteFlat.WritesJoin` | RaftRegistry/common/byte_array.cpp:38-75 | Two writes are one write of the bytes joined |
| `ByteFlat.ReadsIff` | RaftRegistry/common/byte_array.cpp:216-247 | A read gives the next bytes of what is readable, keeps the contents, and fails exactly when there are not so many |
| `ByteFlat.ReadsAtIff` | RaftRegistry/common/byte_array.cpp:249-281 | A read at a position gives the bytes of the contents there and fails exactly behind their end |
| `ByteFlat.SeeksIff` | RaftRegistry/common/byte_array.cpp:628-643 | The cursor goes anywhere within the capacity; behind the end it takes what memory holds there into the contents |
| `ByteFlat.ClearEmpties` | RaftRegistry/common/byte_array.cpp:651-661 | After `clear` nothing is readable and what is written next is all of the contents, in one node |
| `ByteFlat.GrowsLeast` | RaftRegistry/common/byte_array.cpp:669-700 | Memory is added only when it is missing, by less than a node more than that, and is cleared |
| `ByteFlat.NodesIsCeiling` | RaftRegistry/common/byte_array.cpp:678 | The number of nodes added is the quotient rounded up |
| `ByteArrayClass.ByteArray.constructor` | RaftRegistry/common/byte_array.cpp:14 | One cleared node, cursor at its start |
| `ByteArrayClass.ByteArray.AddCapacity` | RaftRegistry/common/byte_array.cpp:669-700 | Room for the bytes from the cursor on, in whole cleared nodes behind the last; contents, size and cursor stay, and `m_current` enters the new nodes when it stood at the end |
| `ByteArrayClass.ByteArray.Write` | RaftRegistry/common/byte_array.cpp:38-75 | The list of nodes becomes what the flat sequence becomes under the write |
| `ByteArrayClass.ByteArray.Read` | RaftRegistry/common/byte_array.cpp:216-247 | The bytes and the new cursor of the flat sequence, or nothing changed when there are too few |
| `ByteArrayClass.ByteArray.ReadAt` | RaftRegistry/common/byte_array.cpp:249-281 | The bytes of the flat sequence from a position on, for every position and length, the cursor untouched |
| `ByteArrayClass.ByteArray.SetPosition` | RaftRegistry/common/byte_array.cpp:628-643 | The cursor and size of the flat sequence, or nothing changed past the capacity |
| `ByteArrayClass.ByteArray.ToString` | RaftRegistry/common/byte_array.cpp:470-478 | All that is readable, the cursor untouched |
| `ByteArrayClass.ByteArray.Clear` | RaftRegistry/common/byte_array.cpp:651-661 | Only the first node remains, size and position 0 |
| `ByteArrayClass.ByteArray.CurrentMissing` | RaftRegistry/common/byte_array.cpp:628-643 | `m_current` is null exactly when the position is the capacity, and elsewhere is the node that holds the position |
| `ByteDepartures.SeekAsWrittenIff` | RaftRegistry/common/byte_array.cpp:637-641 | The walk as written runs off the list exactly at full capacity, and finds the node everywhere else |
| `ByteDepartures.GrowAsWrittenIff` | RaftRegistry/common/byte_array.cpp:665-678 | With the whole capacity taken for what remains, enough is added if and only if there was enough, or the nodes that the new bytes alone would take reach from the front to their end |
| `ByteDepartures.ReadAsWrittenIff` | RaftRegistry/common/byte_array.cpp:268-280 | Without resetting `nodeCap` the right bytes are read, whatever they are, if and only if the read starts at a node or ends within twice what its first node has left |
| `SerialFormat.RoundTrip` | RaftRegistry/rpc/serializer.h:125-209 | For every nesting of numbers, strings, pairs, tuples, lists, sets, multisets and maps, reading gives back the value and stops exactly at its end, whatever follows |
| `SerialFormat.RoundTripAll` | RaftRegistry/rpc/serializer.h:256-275 | So for any sequence of values written one behind the other |
| `SerialFormat.ReadOneWay` | RaftRegistry/rpc/serializer.h:125-209 | No encoding is the beginning of another: bytes are read in one way only |
| `SerialFormat.Truncated` | RaftRegistry/rpc/serializer.h:125-163 | An encoding cut off anywhere is not read as any value |
| `SerialFormat.FirstPairCounts` | RaftRegistry/rpc/serializer.h:394-413 | Of several pairs with one key the first decides: `emplace` does not replace it |
| `SerialFormat.KeyFromPair` | RaftRegistry/rpc/serializer.h:394-413 | A map that is read has no keys but those of its pairs |
| `SerialFormat.MapComesBack` | RaftRegistry/rpc/serializer.h:394-413 | A map written in any order of its keys comes back as that map |
| `SerializerClass.Serializer.WriteItem` | RaftRegistry/rpc/serializer.h:171-209 | Lays down the encoding of the value at the cursor and nothing else |
| `SerializerClass.Serializer.WriteContainer` | RaftRegistry/rpc/serializer.h:269-275 | The size, and then the elements in a loop |
| `SerializerClass.Serializer.WriteString` | RaftRegistry/common/byte_array.cpp:204-207 | The length as a varint, and then the bytes |
| `SerializerClass.Serializer.ReadValue` | RaftRegistry/rpc/serializer.h:125-163 | Reads from the cursor what the format reads from the bytes there, and leaves the cursor where that ends; throws exactly when it does |
| `SerializerClass.Serializer.ReadContainer` | RaftRegistry/rpc/serializer.h:256-266 | The size, and then the elements in a loop into an empty container |
| `SerializerClass.Serializer.ReadVUint` | RaftRegistry/common/byte_array.cpp:337-367 | The loop, one byte after the other and stopping at the last unit, reads from the cursor what the format reads, and throws exactly when the bytes end too early |
| `SerializerClass.Serializer.ReadString` | RaftRegistry/common/byte_array.cpp:410-416 | The length, and then the bytes |
| `SerializerClass.WroteContents` | RaftRegistry/rpc/serializer.h:171-209 | What a write leaves in the array: the bytes at the cursor, what preceded and what followed them as before |
| `Persistence.PersistedLoads` | RaftRegistry/raft/persister.cpp:25-62 | What was persisted is what is loaded: the hard state, and behind it the entries |
| `Persistence.FileLaidOut` | RaftRegistry/raft/persister.cpp:82-97 | The file byte by byte: term, vote and commit index, the number of entries, and of each the index, the term and the data behind their length |
| `Persistence.CutFileLoads` | RaftRegistry/raft/persister.cpp:25-62 | Of a file cut short no entries are loaded, and the hard state exactly when it is whole |
| `Persistence.Persist` | RaftRegistry/raft/persister.cpp:82-97 | The bytes that go to the file |
| `Persistence.Load` | RaftRegistry/raft/persister.cpp:25-62 | Both are loaded from any file as the format reads it |
| `ChunkFormat.SplitsDoNotMatter` | RaftRegistry/http/parse.cpp:172-187 | Any split of the input into `execute` calls parses as one call does |
| `ChunkFormat.FeedJoined` | RaftRegistry/http/parse.cpp:172-187 | A call on joined input is two calls, the second only if the first did not end |
| `ChunkTheorems.ChunkedResponse` | RaftRegistry/http/parse.cpp:625-684 | For any chunks and any split of their encoding into calls: the body is the concatenation, finish is set on exactly the last byte, and the bytes consumed are the encoding |
| `ChunkHex.DigitIff` | RaftRegistry/http/parse.cpp:640-648 | A byte is a digit of value `d` if and only if it stands at `d` in 0123456789abcdef or 0123456789ABCDEF |
| `ChunkHex.HexMeans` | RaftRegistry/http/parse.cpp:635-648 | Every number written in hexadecimal, in either case, is read back |
| `ChunkHex.WrittenResponse` | RaftRegistry/http/parse.cpp:625-684 | A response whose sizes are so written, in whatever pieces it comes, is taken to its last byte and delivers the data joined |
| `ChunkTheorems.TakesEncoding` | RaftRegistry/http/parse.cpp:625-684 | An encoding, also in the wider sense the parser takes, is consumed to its last byte and no further |
| `ChunkTheorems.FinishMeans` | RaftRegistry/http/parse.cpp:625-684 | Whenever the parser finishes, what it consumed is an encoding and what it delivered its body |
| `ChunkTheorems.AcceptsExactly` | RaftRegistry/http/parse.cpp:625-684 | The inputs consumed whole are exactly the encodings in that sense |
| `ChunkTheorems.TakenMoreThanProper` | RaftRegistry/http/parse.cpp:635-657 | Every proper chunk is taken, and so is a last chunk without a size, which section 7.1 of RFC 9112 does not allow |
| `ChunkParserClass.ResponseParser.Resume` | RaftRegistry/http/parse.cpp:625-684 | One resumption of the coroutine is one step of the parser |
| `ChunkParserClass.ResponseParser.Execute` | RaftRegistry/http/parse.cpp:114-187 | Feeds the bytes to the parser, returns how many it took, and moves the rest to the front of the buffer |
| `RpcDemux.Demultiplexed` | RaftRegistry/rpc/rpc_client.cpp:438-495 | In every interleaving of callers, responses, timeouts and close, with no id reused while outstanding: a call that returns a response returns its own, never as a timeout, and no response reaches two calls |
| `RpcDemux.NoneLeftBehind` | RaftRegistry/rpc/rpc_client.cpp:30-63 | While the client is open exactly the calls that have not returned have a handler, and `close` wakes every one of them and leaves none |
| `RpcDemux.CallCompletes` | RaftRegistry/rpc/rpc_client.cpp:438-495 | A call on an open connection whose response comes in before it gives up returns that response, and the handlers are as before |
| `RpcDemux.LateResponseDropped` | RaftRegistry/rpc/rpc_client.cpp:438-495 | A call that gives up returns a timeout, and the response that comes in afterwards reaches nobody |
| `RpcDemux.InvInRuns` | RaftRegistry/rpc/rpc_client.cpp:438-495 | The invariant behind it: handlers, requests, responses and channels of one id belong to one call |
| `RpcDemux.MisdeliversIff` | RaftRegistry/rpc/rpc_client.cpp:438-454 | A response reaches another call's channel if and only if its id has been given to that call |
| `RpcDemux.ReuseMisdelivers` | RaftRegistry/rpc/rpc_client.cpp:463-469 | If the next id is that of a request whose call has left, the response reaches the next caller, which returns it |
| `RpcDemux.EnoughIds` | RaftRegistry/rpc/rpc_client.cpp:463-469 | Any run that begins no more calls than there are ids reuses none while it is outstanding, so what is said of such runs holds of it |
| `RpcDemux.ReuseIsReached` | RaftRegistry/rpc/rpc_client.cpp:463-469 | For every number of ids there is a run to that state: as many calls in a row as there are ids, all timed out |
| `RpcClientClass.RpcClient.Register` | RaftRegistry/rpc/rpc_client.cpp:456-474 | A new channel is put in the table under the next id |
| `RpcClientClass.RpcClient.AddHandler` | RaftRegistry/rpc/rpc_client.cpp:463-469 | `emplace` under the incremented id, which does not replace a handler that is there |
| `RpcClientClass.RpcClient.RecvProtocol` | RaftRegistry/rpc/rpc_client.cpp:438-454 | The response goes to the channel of its id, or nowhere |
| `RpcClientClass.RpcClient.Deregister` | RaftRegistry/rpc/rpc_client.cpp:487-494 | The handler goes, unless the client has been closed |
| `RpcClientClass.RpcClient.Close` | RaftRegistry/rpc/rpc_client.cpp:30-45 | Every waiting channel gets one null and the table is emptied; a second close does nothing |

## Left out

- RaftTheorems.StateMachineSafety: proved of careful runs; that both conditions are needed is shown by two runs, but a run that breaks one need not go wrong, so there is no equivalence. Of the code with both slips repaired it is proved of every run. The same holds of LeaderHasCommitted, LeaderKnowledge and NoNodeExits.
- RaftTheorems.LeaderKnowledge: excepts a peer that took lines 529-531, which keep an entry the snapshot contradicts and do not say so in the answer.
- RaftCutMessage.CutMessageBreaksSafety: has one entry a message; with the constant 1000 of raft_node.cpp:48 the same needs longer logs.
- KVTheorems.ReplicatedAgreement: takes it that each server is in step with its node's log; `DeliveryKeepsInStep` gives that for the entries of whole batches, not for snapshots pushed beside them.
- RaftDelivery.InOrderWithoutGaps: about entries; that an installed snapshot is pushed beside them (raft_node.cpp:534) is left to the order that KVReplica.ReplicaAgreement asks for.
- KVTheorems.DeliveryKeepsInStep: the same, no snapshot is installed while it delivers.
- KVServerClass.KVServer.HandleMessage: what a round tells the Raft node (`persistSnapshot`, `saveSnapshot`) and a waiting client is not part of its contract; the node's side is `PersistSnapshot` and `PersistStateAndSnapshot`, and the response is an out-parameter.
- KVServerClass.KVServer.Applier: the same for the loop.
- RpcClientClass.RpcClient.Close: the session, the subscriptions, the heartbeat timer and the closing of the send channel are not modelled.
- KVReplica.ReplicaAgreement: asks that messages come in index order, entries without gaps, as the applier delivers them; raft_node.cpp:534 pushes an installed snapshot from a coroutine of its own and may break that order.
- RaftNodeClass.RaftNode.HandleVoteReply: a peer is asked once an election; in `RaftSystem` a repeated reply is counted once.
- Terms and indices are unbounded integers; overflow of 64 bits is not modelled.
- Liveness: timers, their random delays and heartbeats are actions that may happen at any time; nothing is said about when a leader is found or when a round takes place. RaftProgress and RaftCatchUp are about what elections and rounds lead to when no message is lost.
- RaftCatchUp.CatchesUpIff: for messages without a limit on their entries; CatchesUp is for every limit.
- RaftCatchUp.CatchesUp: of one leader and one follower, with the leader proposing nothing in between; where it ends at a snapshot `InstallRound` and `InstalledMatches` go on.
- Coroutines, channels and condition variables: a lock-held region is one step, a channel is a sequence.
- The file system under the persister and the snapshotter: what was written is there in full after a crash.
- Sockets, addresses, streams and sessions: a message is a value. Reconnecting an RPC client, its heartbeat and its subscriptions.
- The waiting part of `handleCommand`, notify channels and event publishing (kvserver.cpp:75-112): timing, not the state machine. The choice when to take a snapshot (kvserver.cpp:235-240) is any moment.
- Compile-time reflection: a record is the tuple of its fields. Floats travel as the bit patterns of integers. Reading into a container that is not empty, and the order of equal keys in a multimap.
- `getReadBuffers`, `getWriteBuffers`, the file operations and `toHexString` of `ByteArray`.
- HTTP request lines and headers, chunk extensions and trailers (the parser has none), and the other states of `execute`.
- URIs, configuration, servlets, connection pools, route strategies, pub/sub: thin code whose properties would be easy.
