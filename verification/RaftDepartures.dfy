/** Where the code does not do what its comments promise: the code as written, an input on
    which the promise fails, and exactly when it is kept. */
module RaftDepartures {
  import opened RaftLogSpec
  import opened RaftLogClass
  import opened RaftLogLaws
  import opened RaftProtocol

  // ----- `append` in the middle of the log inserts and does not erase

  /** `RaftLog::append` on the stored entries, with `insert` where the comment says overwrite. */
  function AppendAsWritten(stored: seq<Indexed>, es: seq<Indexed>): seq<Indexed>
    requires stored != [] && es != [] && es[0].index <= stored[0].index + |stored|
  {
    var after := es[0].index;
    if after == stored[0].index + |stored| then stored + es
    else if after <= stored[0].index then es
    else
      var offset := after - stored[0].index;
      stored[..offset] + es + stored[offset..]
  }

  /** The indices stay contiguous exactly when nothing stored lies at or past the first new index. */
  lemma InsertKeepsOrderIff(stored: seq<Indexed>, es: seq<Indexed>)
    requires stored != [] && es != [] && Contiguous(stored, stored[0].index) && Contiguous(es, es[0].index)
    requires es[0].index <= stored[0].index + |stored|
    ensures var r := AppendAsWritten(stored, es);
            Contiguous(r, r[0].index) <==>
            es[0].index == stored[0].index + |stored| || es[0].index <= stored[0].index
  {
    var r, after, offset := AppendAsWritten(stored, es), es[0].index, es[0].index - stored[0].index;
    if stored[0].index < after < stored[0].index + |stored| {
      assert r[offset + |es|] == stored[offset];
      assert r[0] == stored[0];
    }
  }

  // ----- `findConflict(prevLogIndex, prevLogTerm)` compares inside the call to `term`

  /** The loop `while (index >= first && term(index == conflictTerm))`. */
  function HintAsWritten(log: Log, index: int, t: int): int
    decreases index
  {
    if index >= log.FirstIndex() && log.Term(if index == t then 1 else 0) != 0
    then HintAsWritten(log, index - 1, t) else index
  }

  /** `findConflict(prevLogIndex, prevLogTerm)` with that loop. */
  function ConflictHintAsWritten(log: Log, prev: int): int {
    if prev > log.LastIndex() then log.LastIndex() + 1 else HintAsWritten(log, prev - 1, log.Term(prev))
  }

  /** Once the log has been compacted past index 1 the loop always runs to the snapshot index: both
      terms it may look at are -1. */
  lemma {:induction false} HintRunsToSnapshot(log: Log, index: int, t: int)
    requires log.base > 1 && index >= log.base
    ensures HintAsWritten(log, index, t) == log.base
    decreases index
  {
    if index > log.base { HintRunsToSnapshot(log, index - 1, t); }
  }

  /** In a log compacted to index 1 too, unless it passes the index equal to the term it looks for and
      the entry at 1 has term 0. */
  lemma {:induction false} HintRunsToOne(log: Log, index: int, t: int)
    requires log.Valid() && log.base == 1 && index >= 1
    ensures HintAsWritten(log, index, t) == if log.full[1].term == 0 && 2 <= t <= index then t else 1
    decreases index
  {
    if index > 1 { HintRunsToOne(log, index - 1, t); }
  }

  /** In a log that was never compacted it takes one step at most. */
  lemma HintStops(log: Log, index: int, t: int)
    requires log.Valid() && log.base == 0 && log.full[0] == DUMMY && 1 <= index < |log.full|
    ensures HintAsWritten(log, index, t) == if index == t && log.full[1].term != 0 then index - 1 else index
  {
    assert log.Term(0) == 0 && log.Term(1) == log.full[1].term;
    assert HintAsWritten(log, index - 1, t) == index - 1 || index != t;
  }

  /** The walk down ends at `end` if all above it has the term, and it has not or is the snapshot. */
  lemma {:induction false} ScanEndsIff(log: Log, index: int, t: int, end: int)
    requires log.base <= end <= index
    ensures log.ScanBack(index, t) == end <==>
            (forall j :: end < j <= index ==> log.Term(j) == t) && (end == log.base || log.Term(end) != t)
    decreases index
  {
    if index > log.base && log.Term(index) == t && end < index { ScanEndsIff(log, index - 1, t, end); }
  }

  /** Where the promised walk must end for the written one to end there as well. */
  predicate HintKept(log: Log, prev: int)
    requires log.Valid()
  {
    var t := log.Term(prev);
    prev > log.LastIndex() || prev <= log.FirstIndex() ||
    if log.base == 0 then
      if t == prev - 1 && log.full[1].term != 0 then log.Term(prev - 1) == t && (prev == 2 || log.Term(prev - 2) != t)
      else log.Term(prev - 1) != t
    else if log.base == 1 && log.full[1].term == 0 && 2 <= t < prev then
      log.Term(t) != t && forall j :: t < j < prev ==> log.Term(j) == t
    else
      forall j :: log.base < j < prev ==> log.Term(j) == t
  }

  /** For every log and index, compacted or not: the written loop answers the promised hint exactly in
      these cases. */
  lemma HintAsPromisedIff(log: Log, prev: int)
    requires log.Valid() && log.full[0] == DUMMY
    ensures ConflictHintAsWritten(log, prev) == log.ConflictHint(prev) <==> HintKept(log, prev)
  {
    var t, index := log.Term(prev), prev - 1;
    if log.FirstIndex() < prev <= log.LastIndex() {
      if log.base == 0 {
        HintStops(log, index, t);
      } else if log.base == 1 {
        HintRunsToOne(log, index, t);
      } else {
        HintRunsToSnapshot(log, index, t);
      }
      ScanEndsIff(log, index, t, HintAsWritten(log, index, t));
    }
  }

  // ----- the deferred commit of `handleAppendEntries` goes by `lastIndex()`

  lemma DeferredCommitIff(was: Log, log: Log, commit: int, last: int)
    requires log.Valid() && last <= log.LastIndex() && was.committed <= log.committed
    requires log.committed == if Min(commit, last) > was.committed then Min(commit, last) else was.committed
    ensures var vouched := Max(was.committed, last);
            DeferredCommit(log, commit).committed <= vouched <==> commit <= vouched || log.LastIndex() <= vouched
  {
  }

  /** A successful answer commits no more than the message vouches for, or had been committed
      before, exactly when the leader's commit index lies within that, or the follower's log does, or
      the follower's log is cut off by the entries. */
  lemma CommitVouchedForIff(n: Node, request: AppendArgs)
    requires n.log.Valid() && HandleAppendEntries(n, request).Done? && HandleAppendEntries(n, request).reply.success
    ensures var Done(n1, reply) := HandleAppendEntries(n, request);
            var vouched := Max(n.log.committed, request.prevLogIndex + |request.entries|);
            n1.log.committed <= vouched <==>
              request.leaderCommit <= vouched || n.log.LastIndex() <= vouched ||
              n.log.FindConflict(request.prevLogIndex + 1, request.entries) != 0
  {
    var m := request;
    assert FollowLeader(n, m).log == n.log;
    var Appended(log, last) := n.log.MaybeAppend(m.prevLogIndex, m.prevLogTerm, m.leaderCommit, m.entries);
    assert HandleAppendEntries(n, m).node.log == DeferredCommit(log, m.leaderCommit);
    AppendContract(n.log, m.prevLogIndex, m.prevLogTerm, m.leaderCommit, m.entries, log, last);
    LengthAfter(n.log, m.prevLogIndex, m.prevLogTerm, m.leaderCommit, m.entries, log, last);
    DeferredCommitIff(n.log, log, m.leaderCommit, last);
  }

  /** A follower with a stale second entry, and a heartbeat that matches only the first: it
      commits the stale entry. */
  lemma CommitsStaleEntry()
    ensures var log := Log([DUMMY, Entry(1, "a"), Entry(1, "stale")], 0, 0, 0);
            var n := Start(2, {1, 3}).(currentTerm := 2, log := log);
            var request := AppendArgs(2, 1, 1, 1, [], 2);
            var out := HandleAppendEntries(n, request);
            out.Done? && out.reply.success && out.node.log.committed == 2 && out.node.log.full[2] == Entry(1, "stale")
  {
    var log := Log([DUMMY, Entry(1, "a"), Entry(1, "stale")], 0, 0, 0);
    assert log.MatchLog(1, 1);
    assert log.FindConflict(2, []) == 0;
  }

  // ----- `handleInstallSnapshot` compacts a log that is known to differ

  /** For a snapshot above the commit index: the log then holds the snapshot's last entry exactly when
      it was shorter, or held it before. */
  lemma SnapshotEntryKeptIff(n: Node, request: InstallArgs)
    requires n.log.Valid() && request.term >= n.currentTerm
    requires n.log.base <= request.snapshot.index && n.log.committed < request.snapshot.index
    requires |request.snapshot.prefix| == request.snapshot.index + 1
    requires request.snapshot.prefix[request.snapshot.index].term == request.snapshot.term >= 0
    ensures var (n1, _, branch) := HandleInstallSnapshot(n, request);
            n1.log.MatchLog(request.snapshot.index, request.snapshot.term) <==>
              request.snapshot.index > n.log.LastIndex() ||
              n.log.MatchLog(request.snapshot.index, request.snapshot.term)
  {
  }

  /** And that branch is taken: the node keeps its own entry, and its answer does not say so. */
  lemma KeepsDifferingEntry()
    ensures var n := Start(2, {1, 3}).(currentTerm := 1,
            log := Log([DUMMY, Entry(1, "mine"), Entry(1, "mine too")], 0, 0, 0));
            var snap := Snapshot(1, 2, [DUMMY, Entry(2, "theirs")]);
            var (n1, reply, branch) := HandleInstallSnapshot(n, InstallArgs(2, 1, snap));
            branch.Compacted? && n1.log.base == 1 && n1.log.full[1] == Entry(1, "mine") && reply == InstallReply(1, 1)
  {
  }
}
