/** Log safety of whole runs: every step keeps `LogsInv`, and with it log matching, leader
    completeness and state machine safety hold in every reachable state. */
module RaftSafety {
  import opened Options
  import opened RaftLogSpec
  import opened RaftLogLaws
  import opened RaftProtocol
  import opened RaftHistory
  import opened RaftSystem
  import opened RaftElection
  import opened RaftFrame
  import opened RaftAppend

  // ----- a vote

  /** The log comparison: a candidate's log that is up to date with a voter's holds every
      acknowledged entry of an earlier term that the voter holds, unless a leader lost it. */
  lemma VoteBuys(h: History, log: Log, cl: seq<Entry>, t: int, k: int, u: int, was: int)
    requires HistoryOK(h) && log.Valid() && LogOK(h, log.full) && LogOK(h, cl) && TermsUpTo(cl, u - 1)
    requires CurrentTermEntry(h, t, k) && t < u && was <= u && Kept(h, log.full, t, k, was)
    requires log.IsUpToDate(|cl| - 1, cl[|cl| - 1].term)
    ensures Kept(h, cl, t, k, u)
  {
    var vl := log.full;
    if Agree(vl, h.logs[t], k + 1) {
      var cLast, vLast := cl[|cl| - 1].term, vl[|vl| - 1].term;
      assert vl[k].term == t;
      TermsRise(h, vl, k, |vl| - 1);
      if cLast == vLast {
        LogMatching(h, cl, vl, |vl| - 1) by { LongerReaches(h, cl, vl); }
      } else {
        assert Anchored(h, cl, |cl| - 1);
        if |cl| - 1 < k < |h.logs[cLast]| {
          TermsRise(h, h.logs[cLast], |cl| - 1, k);
        }
      }
    }
  }

  /** Of two logs that end in the same term, the longer one has that term at the other's end. */
  lemma LongerReaches(h: History, cl: seq<Entry>, vl: seq<Entry>)
    requires LogsOK(h) && LogOK(h, cl) && LogOK(h, vl) && |cl| >= |vl| && cl[|cl| - 1].term == vl[|vl| - 1].term
    ensures cl[|vl| - 1].term == vl[|vl| - 1].term
  {
    assert Anchored(h, cl, |cl| - 1) && Anchored(h, vl, |vl| - 1);
  }

  // ----- the history after each kind of change

  lemma AckedWith(h: History, a: Ack, q: int, t: int, i: int)
    ensures Acked(WithAck(h, a), q, t, i) <==> Acked(h, q, t, i) || (q == a.peer && t == a.term && i <= a.upto)
  {
    if q == a.peer && t == a.term && i <= a.upto {
      assert a in WithAck(h, a).acks;
    }
  }

  lemma AckGrows(h: History, a: Ack)
    ensures LogsGrow(h, WithAck(h, a), a.peer)
  {
  }

  /** The parts of `HistoryOK` that read no votes and no acknowledgements. */
  lemma SameLogs(h: History, k: History, who: int)
    requires LogsOK(h) && CampaignsOK(h) && LogsGrow(h, k, who)
    requires k.logs == h.logs && k.wins == h.wins && k.campaigns == h.campaigns
    ensures LogsOK(k) && CampaignsOK(k)
  {
    forall t | t in k.logs ensures LogOK(k, k.logs[t]) { LogOKGrows(h, k, who, h.logs[t]); }
    forall c | c in k.campaigns ensures LogOK(k, k.campaigns[c]) { LogOKGrows(h, k, who, h.campaigns[c]); }
  }

  /** A new acknowledgement is of the node's current term, so no vote of the node is later. */
  lemma AckKeepsBallots(h: History, n: Node, a: Ack)
    requires HistoryOK(h) && NodeVotes(h, n) && a.peer == n.id && a.term == n.currentTerm
    ensures BallotsOK(WithAck(h, a)) && WinnersOK(WithAck(h, a))
  {
    var k := WithAck(h, a);
    AckGrows(h, a);
    forall b, t, i | b in k.ballots && Acked(k, b.voter, t, i) && t < b.term && CurrentTermEntry(k, t, i)
      ensures (b.term, b.cand) in k.campaigns && Kept(k, k.campaigns[(b.term, b.cand)], t, i, b.term)
    {
      AckedWith(h, a, b.voter, t, i);
      assert CurrentTermEntry(h, t, i);
      KeptGrows(h, k, n.id, h.campaigns[(b.term, b.cand)], t, i, b.term);
    }
    forall u, p, t, i | u in k.wins && p in k.wins[u].voters && Acked(k, p, t, i) && t < u && CurrentTermEntry(k, t, i)
      ensures u in k.logs && Kept(k, k.logs[u], t, i, u - 1)
    {
      AckedWith(h, a, p, t, i);
      assert CurrentTermEntry(h, t, i);
      assert WinOK(h, u);
      KeptGrows(h, k, n.id, h.logs[u], t, i, u - 1);
    }
  }

  lemma AckKeepsHistory(h: History, n: Node, a: Ack)
    requires HistoryOK(h) && NodeVotes(h, n) && a.peer == n.id && a.term == n.currentTerm
    requires a.term in h.logs && 0 <= a.upto < |h.logs[a.term]|
    ensures HistoryOK(WithAck(h, a)) && LogsGrow(h, WithAck(h, a), n.id)
  {
    AckGrows(h, a);
    SameLogs(h, WithAck(h, a), n.id);
    AckKeepsBallots(h, n, a);
    AcksDoNotMatter(h, WithAck(h, a), n);
  }

  // ----- a follower takes entries from the leader

  /** A log that the leader of a later term cuts keeps what it had acknowledged, or that leader lacks it. */
  lemma CutKeeps(h: History, before: Log, after: Log, t: int, k: int, was: int, u: int)
    requires LogsOK(h) && u in h.logs && t <= was <= u && 0 <= k && Kept(h, before.full, t, k, was)
    requires after.full == before.full || Cut(before, after, h.logs[u])
    ensures Kept(h, after.full, t, k, u)
  {
    if Agree(before.full, h.logs[t], k + 1) && after.full != before.full {
      var c :| CutAt(before, after, h.logs[u], c);
      assert c <= k ==> before.full[c] == h.logs[t][c];
    }
  }

  lemma AgreeingIsNotFatal(log: Log, prev: int, prevTerm: int, commit: int, entries: seq<Entry>, x: seq<Entry>)
    requires log.Valid() && Agree(log.full, x, log.committed + 1)
    requires NonNegative(x) && Stretch(entries, x, prev)
    ensures !log.MaybeAppend(prev, prevTerm, commit, entries).Fatal?
  {
    if log.MatchLog(prev, prevTerm) {
      var c := log.FindConflict(prev + 1, entries);
      log.FirstConflict(prev + 1, entries);
      if c != 0 {
        assert entries[c - (prev + 1)] == x[c];
      }
    }
  }

  /** The committed part of a log is never contradicted by the leader of its own or a later term. */
  lemma NeverFatal(h: History, log: Log, term: int, m: AppendArgs)
    requires HistoryOK(h) && log.Valid() && LogOK(h, log.full) && AppendOK(h, m) && term <= m.term
    requires Safe(h, log.full, log.committed + 1, term)
    ensures !log.MaybeAppend(m.prevLogIndex, m.prevLogTerm, m.leaderCommit, m.entries).Fatal?
  {
    SafeInLeader(h, log.full, log.committed + 1, term, m.term);
    TermsNotNegative(h, m.term);
    AgreeingIsNotFatal(log, m.prevLogIndex, m.prevLogTerm, m.leaderCommit, m.entries, h.logs[m.term]);
  }

  // ----- a node changes term or role

  lemma KeptLater(h: History, x: seq<Entry>, t: int, k: int, bound: int, later: int)
    requires Kept(h, x, t, k, bound) && bound <= later
    ensures Kept(h, x, t, k, later)
  {
  }

  lemma HeldLater(h: History, id: int, log: Log, term: int, later: int)
    requires Held(h, id, log, term) && term <= later
    ensures Held(h, id, log, later)
  {
    forall t, k | Acked(h, id, t, k) && 0 <= k ensures t <= later && Kept(h, log.full, t, k, later) {
      KeptLater(h, log.full, t, k, term, later);
    }
    SafeTransfer(h, log.full, log.committed + 1, term, log.full, log.committed + 1, later);
  }

  lemma SnapLater(h: History, snap: Snapshot, term: int, later: int)
    requires SnapOK(h, snap, term) && term <= later
    ensures SnapOK(h, snap, later)
  {
    SafeTransfer(h, snap.prefix, |snap.prefix|, term, snap.prefix, |snap.prefix|, later);
  }

  /** A follower in the same or a later term, with the same log and snapshot. */
  lemma StepDownKeepsLogs(h: History, n: Node, n1: Node)
    requires NodeLogs(h, n)
    requires n1.id == n.id && n1.log == n.log && n1.snapshot == n.snapshot && n1.hard.commit <= n.log.committed
    requires n1.role == Follower && n.currentTerm <= n1.currentTerm
    ensures NodeLogs(h, n1)
  {
    HeldLater(h, n.id, n.log, n.currentTerm, n1.currentTerm);
    if n.snapshot.Some? { SnapLater(h, n.snapshot.value, n.currentTerm, n1.currentTerm); }
  }

  // ----- AppendEntries

  /** If the node takes the message, the message vouches for what the node then commits. */
  predicate Takes(n: Node, m: AppendArgs) {
    m.term >= n.currentTerm && n.log.MatchLog(m.prevLogIndex, m.prevLogTerm) ==>
      Vouched(n.log, m.prevLogIndex, m.entries, m.leaderCommit)
  }

  lemma FollowLeaderKeepsLogs(h: History, n: Node, m: AppendArgs)
    requires NodeVotes(h, n) && NodeLogs(h, n) && FromLeader(h, m.term, m.leaderId, n.id) && n.currentTerm <= m.term
    ensures NodeLogs(h, FollowLeader(n, m))
    ensures FollowLeader(n, m).role == Follower && FollowLeader(n, m).currentTerm == m.term
    ensures FollowLeader(n, m).log == n.log && FollowLeader(n, m).id == n.id
  {
    StepDownKeepsLogs(h, n, FollowLeader(n, m));
  }

  /** The deferred block adds nothing to the commit index if the message vouches for all it could. */
  lemma DeferredCommitIdle(was: Log, prev: int, prevTerm: int, commit: int, entries: seq<Entry>, log: Log, last: int)
    requires was.Valid() && was.MaybeAppend(prev, prevTerm, commit, entries) == Appended(log, last)
    requires Vouched(was, prev, entries, commit)
    ensures DeferredCommit(log, commit) == log
  {
    AppendContract(was, prev, prevTerm, commit, entries, log, last);
    LengthAfter(was, prev, prevTerm, commit, entries, log, last);
  }

  /** What a node has acknowledged it keeps when it takes the entries. */
  lemma TakenEntriesKeep(h: History, id: int, was: Log, log: Log, u: int)
    requires LogsOK(h) && u in h.logs && Keeps(h, id, was.full, u)
    requires log.full == was.full || Cut(was, log, h.logs[u])
    ensures Keeps(h, id, log.full, u)
  {
    forall t, k | Acked(h, id, t, k) && 0 <= k ensures t <= u && Kept(h, log.full, t, k, u) {
      CutKeeps(h, was, log, t, k, u, u);
    }
  }

  lemma TakenEntriesSafe(h: History, was: Log, m: AppendArgs, log: Log, last: int)
    requires AppendOK(h, m) && last == m.prevLogIndex + |m.entries|
    requires Safe(h, was.full, was.committed + 1, m.term)
    requires Agree(log.full, h.logs[m.term], last + 1) && (log.full == was.full || Cut(was, log, h.logs[m.term]))
    requires log.committed == Max(was.committed, Min(m.leaderCommit, last))
    ensures Safe(h, log.full, log.committed + 1, m.term)
  {
    if log.committed > was.committed {
      SafeTransfer(h, h.logs[m.term], m.leaderCommit + 1, m.term, log.full, log.committed + 1, m.term);
    } else if log.full != was.full {
      var c :| CutAt(was, log, h.logs[m.term], c);
      SafeTransfer(h, was.full, was.committed + 1, m.term, log.full, was.committed + 1, m.term);
    }
  }

  lemma TakenEntriesHeld(h: History, id: int, was: Log, m: AppendArgs, log: Log, last: int)
    requires LogsOK(h) && Held(h, id, was, m.term) && AppendOK(h, m)
    requires was.MaybeAppend(m.prevLogIndex, m.prevLogTerm, m.leaderCommit, m.entries) == Appended(log, last)
    ensures Held(h, id, log, m.term)
    ensures last == m.prevLogIndex + |m.entries| && Agree(log.full, h.logs[m.term], last + 1)
    ensures log.committed >= was.committed
  {
    TakenEntries(h, was, m, log, last);
    AppendKeepsLogOK(h, was, log, m.term);
    TakenEntriesKeep(h, id, was, log, m.term);
    TakenEntriesSafe(h, was, m, log, last);
    if log.full != was.full { var c :| CutAt(was, log, h.logs[m.term], c); }
  }

  /** After acknowledging what its log holds, a node still holds all it has acknowledged. */
  lemma HeldWithAck(h: History, id: int, log: Log, term: int, a: Ack)
    requires LogsOK(h) && Held(h, id, log, term) && a.peer == id && a.term == term && term in h.logs
    requires 0 <= a.upto && Agree(log.full, h.logs[term], a.upto + 1)
    ensures Held(WithAck(h, a), id, log, term)
  {
    var k := WithAck(h, a);
    AckGrows(h, a);
    LogOKGrows(h, k, id, log.full);
    SafeGrows(h, k, id, log.full, log.committed + 1, term);
    forall t, i | Acked(k, id, t, i) && 0 <= i ensures t <= term && Kept(k, log.full, t, i, term) {
      AckedWith(h, a, id, t, i);
      if Acked(h, id, t, i) { KeptGrows(h, k, id, log.full, t, i, term); }
    }
  }

  /** The hint of a rejection lies between 1 and the rejected index, or is 0. */
  lemma HintInRange(log: Log, prev: int)
    requires log.Valid() && log.base <= prev && (prev == 0 ==> log.full[0].term == 0)
    ensures log.ConflictHint(prev) <= prev
    ensures prev > 0 ==> 0 <= log.ConflictHint(prev)
  {
  }

  lemma RejectionOK(h: History, n: Node, m: AppendArgs)
    requires LogsOK(h) && NodeLogs(h, n) && AppendOK(h, m) && n.log.base <= m.prevLogIndex
    requires !n.log.MatchLog(m.prevLogIndex, m.prevLogTerm)
    ensures 0 <= n.log.ConflictHint(m.prevLogIndex) <= m.prevLogIndex
  {
    assert LogOK(h, h.logs[m.term]);
    HintInRange(n.log, m.prevLogIndex);
  }

  /** A follower, or a candidate of a term that is already won. */
  ghost predicate NotInOffice(h: History, n: Node) {
    n.role == Follower || (n.role == Candidate && n.currentTerm in h.wins)
  }

  /** A node out of office acknowledges what its log holds. */
  lemma Acknowledges(h: History, n: Node, a: Ack)
    requires HistoryOK(h) && NodeVotes(h, n) && NodeLogs(h, n) && NotInOffice(h, n)
    requires a.peer == n.id && a.term == n.currentTerm && a.term in h.logs
    requires 0 <= a.upto && Agree(n.log.full, h.logs[a.term], a.upto + 1)
    ensures HistoryOK(WithAck(h, a)) && LogsGrow(h, WithAck(h, a), n.id) && NodeLogs(WithAck(h, a), n)
    ensures Acked(WithAck(h, a), a.peer, a.term, a.upto)
  {
    AckKeepsHistory(h, n, a);
    AckedWith(h, a, a.peer, a.term, a.upto);
    HeldWithAck(h, n.id, n.log, n.currentTerm, a);
    if n.snapshot.Some? { SnapOKGrows(h, WithAck(h, a), n.id, n.snapshot.value, n.currentTerm); }
  }

  lemma AppendAccepted(h: History, n: Node, m: AppendArgs, log: Log, last: int)
    requires HistoryOK(h) && NodeVotes(h, n) && NodeLogs(h, n) && n.role == Follower && n.currentTerm == m.term
    requires AppendOK(h, m) && Vouched(n.log, m.prevLogIndex, m.entries, m.leaderCommit)
    requires n.log.MaybeAppend(m.prevLogIndex, m.prevLogTerm, m.leaderCommit, m.entries) == Appended(log, last)
    ensures var k, n1 := WithAck(h, Ack(m.term, n.id, last)), Persist(n.(log := DeferredCommit(log, m.leaderCommit)));
            HistoryOK(k) && LogsGrow(h, k, n.id) && NodeLogs(k, n1) &&
            0 <= last < |k.logs[m.term]| && Acked(k, n.id, m.term, last)
  {
    TakenEntriesHeld(h, n.id, n.log, m, log, last);
    DeferredCommitIdle(n.log, m.prevLogIndex, m.prevLogTerm, m.leaderCommit, m.entries, log, last);
    var n1 := Persist(n.(log := log));
    Acknowledges(h, n1, Ack(m.term, n.id, last));
  }

  /** A step that leaves node `n`, sends `sent` and grows the history to `k` keeps the log invariants. */
  ghost predicate StepOK(h: History, n: Node, sent: set<Msg>, k: History) {
    LogsGrow(h, k, n.id) && HistoryOK(k) && NodeLogs(k, n) && forall m :: m in sent ==> MsgLogs(k, m)
  }

  lemma GrowsNotAtAll(h: History, who: int)
    ensures LogsGrow(h, h, who)
  {
  }

  lemma AnswerOK(h: History, n: Node, m: Msg)
    requires HistoryOK(h) && NodeLogs(h, n) && MsgLogs(h, m)
    ensures StepOK(h, n, {m}, h)
  {
    GrowsNotAtAll(h, n.id);
  }

  lemma PersistKeepsLogs(h: History, n: Node)
    requires NodeLogs(h, n)
    ensures NodeLogs(h, Persist(n))
  {
  }

  lemma AppendRefused(h: History, n: Node, m: AppendArgs, hint: int)
    requires HistoryOK(h) && NodeLogs(h, n) && AppendOK(h, m)
    requires hint == 0 || (n.currentTerm == m.term && 0 <= hint <= m.prevLogIndex)
    ensures forall t, l :: t == n.currentTerm || hint == 0 ==>
              StepOK(h, Persist(n), {AppendResp(m.leaderId, n.id, AppendReply(false, t, l, hint))}, h)
  {
    PersistKeepsLogs(h, n);
    forall t, l | t == n.currentTerm || hint == 0
      ensures StepOK(h, Persist(n), {AppendResp(m.leaderId, n.id, AppendReply(false, t, l, hint))}, h)
    {
      AnswerOK(h, Persist(n), AppendResp(m.leaderId, n.id, AppendReply(false, t, l, hint)));
    }
  }

  /** `handleAppendEntries` never exits. */
  lemma AppendNeverExits(h: History, n: Node, m: AppendArgs)
    requires HistoryOK(h) && NodeLogs(h, n) && AppendOK(h, m)
    ensures HandleAppendEntries(n, m).Done?
  {
    if m.term >= n.currentTerm { NeverFatal(h, n.log, n.currentTerm, m); }
  }

  /** It keeps the invariant. */
  lemma AppendHandled(h: History, n: Node, m: AppendArgs)
    requires HistoryOK(h) && NodeVotes(h, n) && NodeLogs(h, n)
    requires FromLeader(h, m.term, m.leaderId, n.id) && AppendOK(h, m) && Takes(n, m)
    ensures HandleAppendEntries(n, m).Done?
    ensures var Done(n1, reply) := HandleAppendEntries(n, m);
            StepOK(h, n1, {AppendResp(m.leaderId, n.id, reply)}, AfterAppend(h, n.id, reply)) && n1.id == n.id
  {
    if m.term < n.currentTerm {
      AppendRefused(h, n, m, 0);
    } else {
      FollowLeaderKeepsVotes(h, n, m);
      FollowLeaderKeepsLogs(h, n, m);
      EntriesHandled(h, FollowLeader(n, m), m);
    }
  }

  lemma EntriesRefused(h: History, n1: Node, m: AppendArgs)
    requires HistoryOK(h) && NodeLogs(h, n1) && AppendOK(h, m) && n1.currentTerm == m.term
    requires n1.log.base <= m.prevLogIndex && !n1.log.MatchLog(m.prevLogIndex, m.prevLogTerm)
    ensures var reply := AppendReply(false, n1.currentTerm, n1.leaderId, n1.log.ConflictHint(m.prevLogIndex));
            TakeEntries(n1, m) == Done(Persist(n1), reply) &&
            StepOK(h, Persist(n1), {AppendResp(m.leaderId, n1.id, reply)}, h)
  {
    RejectionOK(h, n1, m);
    AppendRefused(h, n1, m, n1.log.ConflictHint(m.prevLogIndex));
  }

  /** The answer to entries that were taken is true. */
  lemma TakenAnswer(k: History, m: AppendArgs, id: int, leaderId: int, last: int)
    requires m.term in k.logs && 0 <= last < |k.logs[m.term]| && Acked(k, id, m.term, last)
    ensures MsgLogs(k, AppendResp(m.leaderId, id, AppendReply(true, m.term, leaderId, last + 1)))
  {
  }

  lemma EntriesAccepted(h: History, n1: Node, m: AppendArgs, log: Log, last: int)
    requires HistoryOK(h) && NodeVotes(h, n1) && NodeLogs(h, n1) && AppendOK(h, m)
    requires n1.role == Follower && n1.currentTerm == m.term
    requires Vouched(n1.log, m.prevLogIndex, m.entries, m.leaderCommit)
    requires n1.log.MaybeAppend(m.prevLogIndex, m.prevLogTerm, m.leaderCommit, m.entries) == Appended(log, last)
    ensures StepOK(h, Persist(n1.(log := DeferredCommit(log, m.leaderCommit))),
                   {AppendResp(m.leaderId, n1.id, AppendReply(true, m.term, n1.leaderId, last + 1))},
                   WithAck(h, Ack(m.term, n1.id, last)))
  {
    AppendAccepted(h, n1, m, log, last);
    TakenAnswer(WithAck(h, Ack(m.term, n1.id, last)), m, n1.id, n1.leaderId, last);
  }

  lemma EntriesHandled(h: History, n1: Node, m: AppendArgs)
    requires HistoryOK(h) && NodeVotes(h, n1) && NodeLogs(h, n1) && AppendOK(h, m)
    requires n1.role == Follower && n1.currentTerm == m.term && Takes(n1, m)
    ensures TakeEntries(n1, m).Done?
    ensures var Done(n2, reply) := TakeEntries(n1, m);
            StepOK(h, n2, {AppendResp(m.leaderId, n1.id, reply)}, AfterAppend(h, n1.id, reply)) && n2.id == n1.id
  {
    if m.prevLogIndex < n1.log.base {
      AppendRefused(h, n1, m, 0);
    } else {
      NeverFatal(h, n1.log, n1.currentTerm, m);
      match n1.log.MaybeAppend(m.prevLogIndex, m.prevLogTerm, m.leaderCommit, m.entries)
      case NoMatch => EntriesRefused(h, n1, m);
      case Appended(log, last) => EntriesAccepted(h, n1, m, log, last);
    }
  }

  lemma FinishStep(s: System, n1: Node, sent: set<Msg>, k: History)
    requires LogsInv(s) && n1.id in s.nodes && StepOK(s.h, n1, sent, k) && VotesInv(Update(s, n1, sent, k))
    ensures LogsInv(Update(s, n1, sent, k))
  {
    CloseLogs(s, n1, sent, k);
  }

  lemma NodeParts(s: System, n: Node)
    requires LogsInv(s) && n.id in s.nodes && n == s.nodes[n.id]
    ensures HistoryOK(s.h) && NodeVotes(s.h, n) && NodeLogs(s.h, n)
  {
  }

  lemma AppendReqParts(s: System, m: Msg)
    requires LogsInv(s) && m in s.msgs && m.AppendReq?
    ensures FromLeader(s.h, m.append.term, m.append.leaderId, m.to) && AppendOK(s.h, m.append)
  {
    assert MsgVotes(s.h, m) && MsgLogs(s.h, m);
  }

  lemma AppendReqKeepsLogs(s: System, n: Node, m: Msg)
    requires LogsInv(s) && n.id in s.nodes && n == s.nodes[n.id] && m in s.msgs && m.AppendReq? && m.to == n.id
    requires Takes(n, m.append)
    ensures LogsInv(OnAppendReq(s, n, m.append))
  {
    NodeParts(s, n);
    AppendReqParts(s, m);
    AppendReqKeepsVotes(s, n, m);
    AppendHandled(s.h, n, m.append);
    var out := HandleAppendEntries(n, m.append);
    FinishStep(s, out.node, {AppendResp(m.append.leaderId, n.id, out.reply)}, AfterAppend(s.h, n.id, out.reply));
  }

  // ----- replies to AppendEntries

  lemma AckedByMajority(h: History, n: Node, i: int)
    requires n.id in h.cluster && n.peers == h.cluster - {n.id} && Acked(h, n.id, n.currentTerm, i)
    requires n.currentTerm in h.wins && n.currentTerm in h.logs && h.logs[n.currentTerm] == n.log.full
    requires forall p :: p in Holders(n, i) ==> Acked(h, p, n.currentTerm, n.matchIndex[p])
    requires Majority(1 + |Holders(n, i)|, n) && 0 < i < |n.log.full| && n.log.full[i].term == n.currentTerm
    ensures Safe(h, n.log.full, i + 1, n.currentTerm)
  {
    var t, q := n.currentTerm, Holders(n, i) + {n.id};
    assert n.id !in Holders(n, i);
    ClusterSize(h, n);
    forall p | p in q ensures Acked(h, p, t, i) {
      if p != n.id { assert Acked(h, p, t, n.matchIndex[p]); }
    }
    assert Quorum(h, q) && AckedByAll(h, q, t, i);
    assert SafeBy(h, n.log.full, i + 1, t, t, i);
  }

  /** A majority of match indices at `i`, an index of the leader's own term: with the leader's own
      acknowledgement the entry is safe. */
  lemma CountedIsSafe(h: History, n: Node, i: int)
    requires HistoryOK(h) && NodeVotes(h, n) && n.role == Leader && Acked(h, n.id, n.currentTerm, i)
    requires n.currentTerm in h.logs && h.logs[n.currentTerm] == n.log.full
    requires forall p :: p in Holders(n, i) ==> MatchOK(h, p, n.currentTerm, n.matchIndex[p])
    requires Majority(1 + |Holders(n, i)|, n) && 0 < i < |n.log.full| && n.log.full[i].term == n.currentTerm
    ensures Safe(h, n.log.full, i + 1, n.currentTerm)
  {
    var t := n.currentTerm;
    if p :| p in Holders(n, i) && !Acked(h, p, t, n.matchIndex[p]) {
      assert MatchOK(h, p, t, n.matchIndex[p]);
      SafeTransfer(h, h.logs[t], n.matchIndex[p] + 1, t, n.log.full, i + 1, t);
    } else {
      AckedByMajority(h, n, i);
    }
  }

  /** The leader acknowledges an index of its own log. */
  lemma LeaderAcks(h: History, n: Node, i: int)
    requires HistoryOK(h) && NodeVotes(h, n) && NodeLogs(h, n) && n.role == Leader && 0 <= i < |n.log.full|
    ensures var k := WithAck(h, Ack(n.currentTerm, n.id, i));
      && HistoryOK(k) && LogsGrow(h, k, n.id) && Held(k, n.id, n.log, n.currentTerm)
      && Acked(k, n.id, n.currentTerm, i)
      && (forall p :: p in n.peers ==> MatchOK(k, p, n.currentTerm, n.matchIndex[p]))
      && (n.snapshot.Some? ==> SnapOK(k, n.snapshot.value, n.currentTerm))
  {
    var a := Ack(n.currentTerm, n.id, i);
    var k := WithAck(h, a);
    AckKeepsHistory(h, n, a);
    AckedWith(h, a, n.id, n.currentTerm, i);
    HeldWithAck(h, n.id, n.log, n.currentTerm, a);
    forall p | p in n.peers ensures MatchOK(k, p, n.currentTerm, n.matchIndex[p]) {
      MatchGrows(h, k, n.id, p, n.currentTerm, n.matchIndex[p]);
    }
    if n.snapshot.Some? { SnapOKGrows(h, k, n.id, n.snapshot.value, n.currentTerm); }
  }

  lemma CommitHeld(h: History, id: int, log: Log, term: int, i: nat)
    requires Held(h, id, log, term) && Safe(h, log.full, i + 1, term) && log.committed < i < |log.full|
    ensures Held(h, id, log.(committed := i), term)
  {
  }

  lemma CommitNode(h: History, k: History, n: Node, i: nat)
    requires NodeLogs(h, n) && n.role == Leader && k == WithAck(h, Ack(n.currentTerm, n.id, i)) && n.log.committed < i
    requires Held(k, n.id, n.log.(committed := i), n.currentTerm)
    requires forall p :: p in n.peers ==> MatchOK(k, p, n.currentTerm, n.matchIndex[p])
    requires n.snapshot.Some? ==> SnapOK(k, n.snapshot.value, n.currentTerm)
    ensures NodeLogs(k, n.(log := n.log.(committed := i)))
  {
  }

  lemma CommitAdvances(h: History, n: Node, i: int)
    requires HistoryOK(h) && NodeVotes(h, n) && NodeLogs(h, n) && n.role == Leader
    requires Majority(1 + |Holders(n, i)|, n) && n.log.committed < i < |n.log.full| &&
             n.log.full[i].term == n.currentTerm
    ensures var k := WithAck(h, Ack(n.currentTerm, n.id, i));
            HistoryOK(k) && LogsGrow(h, k, n.id) && NodeLogs(k, n.(log := n.log.(committed := i)))
  {
    var k := WithAck(h, Ack(n.currentTerm, n.id, i));
    LeaderAcks(h, n, i);
    AcksDoNotMatter(h, k, n);
    CountedIsSafe(k, n, i);
    CommitHeld(k, n.id, n.log, n.currentTerm, i);
    CommitNode(h, k, n, i);
  }

  lemma CommitRoundHandled(h: History, n: Node, i: int, n1: Node)
    requires HistoryOK(h) && NodeVotes(h, n) && NodeLogs(h, n) && n.role == Leader && n1 == CommitRound(n, i)
    ensures StepOK(h, n1, {}, AfterCommit(h, n, n1)) && n1.id == n.id
  {
    if n1.log.committed > n.log.committed {
      CommitAdvances(h, n, i);
    } else {
      GrowsNotAtAll(h, n.id);
    }
  }

  ghost function Moved(n: Node, peer: int, next: int, m: int): Node {
    n.(nextIndex := n.nextIndex[peer := next], matchIndex := n.matchIndex[peer := m])
  }

  lemma MatchMoved(h: History, n: Node, peer: int, next: int, m: int)
    requires NodeVotes(h, n) && NodeLogs(h, n) && n.role == Leader && peer in n.peers
    requires 1 <= next <= |n.log.full| && MatchOK(h, peer, n.currentTerm, m)
    ensures NodeVotes(h, Moved(n, peer, next, m)) && NodeLogs(h, Moved(n, peer, next, m))
  {
  }

  lemma PeerMoved(h: History, n: Node, peer: int, next: int)
    requires HistoryOK(h) && NodeVotes(h, n) && NodeLogs(h, n) && n.role == Leader && peer in n.peers
    requires n.nextIndex[peer] < next <= |n.log.full| && 1 <= next && Acked(h, peer, n.currentTerm, next - 1)
    ensures StepOK(h, Advance(n, peer, next), {}, AfterCommit(h, n, Advance(n, peer, next)))
    ensures Advance(n, peer, next).id == n.id
  {
    var n0 := Moved(n, peer, next, next - 1);
    MatchMoved(h, n, peer, next, next - 1);
    var n1 := CommitRound(n0, next - 1);
    assert Advance(n, peer, next) == n1;
    CommitRoundHandled(h, n0, next - 1, n1);
    assert AfterCommit(h, n, n1) == AfterCommit(h, n0, n1);
  }

  lemma SuccessHandled(h: History, n: Node, peer: int, next: int)
    requires HistoryOK(h) && NodeVotes(h, n) && NodeLogs(h, n) && n.role == Leader && peer in n.peers
    requires 1 <= next <= |n.log.full| && Acked(h, peer, n.currentTerm, next - 1)
    ensures StepOK(h, Advance(n, peer, next), {}, AfterCommit(h, n, Advance(n, peer, next)))
    ensures Advance(n, peer, next).id == n.id
  {
    if next > n.nextIndex[peer] {
      PeerMoved(h, n, peer, next);
    } else {
      CommitRoundHandled(h, n, n.matchIndex[peer], Advance(n, peer, next));
    }
  }

  /** A reply that commits nothing. */
  lemma NothingCommitted(h: History, n: Node, n1: Node)
    requires HistoryOK(h) && NodeLogs(h, n1) && n1.log.committed == n.log.committed
    ensures StepOK(h, n1, {}, AfterCommit(h, n, n1))
  {
    GrowsNotAtAll(h, n1.id);
  }

  lemma BacktrackHandled(h: History, n: Node, m: Msg)
    requires HistoryOK(h) && NodeVotes(h, n) && NodeLogs(h, n) && m.AppendResp? && MsgLogs(h, m) && m.from in n.peers
    requires n.role == Leader && m.appendReply.term == n.currentTerm && !m.appendReply.success
    ensures NodeLogs(h, HandleAppendReply(n, m.from, m.appendReply))
  {
    var reply, peer := m.appendReply, m.from;
    if reply.nextIndex != 0 {
      var held := Min(n.matchIndex[peer], reply.nextIndex - 1);
      assert HandleAppendReply(n, peer, reply) == Moved(n, peer, reply.nextIndex, held);
      LoweredMatchOK(h, peer, n.currentTerm, n.matchIndex[peer], reply.nextIndex - 1);
      MatchMoved(h, n, peer, reply.nextIndex, held);
    }
  }

  lemma AppendReplyHandled(h: History, n: Node, m: Msg)
    requires HistoryOK(h) && NodeVotes(h, n) && NodeLogs(h, n) && m.AppendResp? && MsgLogs(h, m) && m.from in n.peers
    ensures var n1 := HandleAppendReply(n, m.from, m.appendReply);
            StepOK(h, n1, {}, AfterCommit(h, n, n1)) && n1.id == n.id
  {
    var reply, peer := m.appendReply, m.from;
    var n1 := HandleAppendReply(n, peer, reply);
    if n.role == Leader && reply.term == n.currentTerm && reply.success {
      SuccessHandled(h, n, peer, reply.nextIndex);
    } else {
      if n.role == Leader && reply.term > n.currentTerm {
        StepDownKeepsLogs(h, n, BecomeFollower(n, reply.term, reply.leaderId));
      } else if n.role == Leader && reply.term == n.currentTerm {
        BacktrackHandled(h, n, m);
      }
      NothingCommitted(h, n, n1);
    }
  }

  lemma LoweredMatchOK(h: History, p: int, t: int, m: int, k: int)
    requires MatchOK(h, p, t, m) && 0 <= k
    ensures MatchOK(h, p, t, Min(m, k))
  {
    if Safe(h, h.logs[t], m + 1, t) {
      SafeTransfer(h, h.logs[t], m + 1, t, h.logs[t], Min(m, k) + 1, t);
    }
  }

  lemma QuietStep(s: System, n1: Node)
    requires LogsInv(s) && n1.id in s.nodes && NodeLogs(s.h, n1) && VotesInv(Update(s, n1, {}, s.h))
    ensures LogsInv(Update(s, n1, {}, s.h))
  {
    GrowsNotAtAll(s.h, n1.id);
    CloseLogs(s, n1, {}, s.h);
  }

  lemma MsgPart(s: System, m: Msg)
    requires LogsInv(s) && m in s.msgs
    ensures MsgVotes(s.h, m) && MsgLogs(s.h, m)
  {
  }

  lemma AppendRespKeepsLogs(s: System, n: Node, m: Msg)
    requires LogsInv(s) && n.id in s.nodes && n == s.nodes[n.id] && m in s.msgs && m.AppendResp?
    ensures LogsInv(OnDeliver(s, n, m))
  {
    NodeParts(s, n);
    ReplyKeepsVotes(s, n, m);
    if m.from in n.peers {
      MsgPart(s, m);
      AppendReplyHandled(s.h, n, m);
      var n1 := HandleAppendReply(n, m.from, m.appendReply);
      FinishStep(s, n1, {}, AfterCommit(s.h, n, n1));
    }
  }

  // ----- snapshots

  lemma CompactedHeld(h: History, id: int, log: Log, term: int, index: int)
    requires Held(h, id, log, term)
    ensures Held(h, id, log.Compact(index), term)
  {
  }

  /** The log of a node that takes a snapshot from its leader in place of a shorter log. */
  lemma ClearedHeld(h: History, id: int, log: Log, m: InstallArgs)
    requires HistoryOK(h) && Held(h, id, log, m.term) && InstallOK(h, m) && m.snapshot.index > log.LastIndex()
    ensures Held(h, id, log.Clear(m.snapshot), m.term)
  {
    var x, after := h.logs[m.term], log.Clear(m.snapshot);
    PrefixTerms(h, m.snapshot.prefix, m.term);
    forall t, k | Acked(h, id, t, k) && 0 <= k ensures t <= m.term && Kept(h, after.full, t, k, m.term) {
      assert Kept(h, log.full, t, k, m.term);
    }
    SafeInLeader(h, log.full, log.committed + 1, m.term, m.term);
    SafeTransfer(h, log.full, log.committed + 1, m.term, after.full, log.committed + 1, m.term);
  }

  lemma PrefixTerms(h: History, x: seq<Entry>, t: int)
    requires LogsOK(h) && t in h.logs && Agree(x, h.logs[t], |x|)
    ensures TermsUpTo(x, t)
  {
    assert TermsUpTo(h.logs[t], t);
  }

  lemma InstallAgrees(h: History, log: Log, term: int, m: InstallArgs)
    requires HistoryOK(h) && log.Valid() && LogOK(h, log.full) && InstallOK(h, m) && term <= m.term
    requires Safe(h, log.full, log.committed + 1, term)
    requires m.snapshot.index <= log.committed || log.MatchLog(m.snapshot.index, m.snapshot.term)
    ensures Agree(log.full, h.logs[m.term], m.snapshot.index + 1)
  {
    if m.snapshot.index <= log.committed {
      SafeInLeader(h, log.full, log.committed + 1, term, m.term);
    } else {
      LogMatching(h, log.full, h.logs[m.term], m.snapshot.index);
    }
  }

  lemma MisledGrows(h: History, a: Ack)
    ensures LogsGrow(h, WithMisled(h, a), a.peer)
    ensures Misled(WithMisled(h, a), a.peer, a.term, a.upto)
  {
    assert a in WithMisled(h, a).misled;
  }

  lemma MisledKeepsHistory(h: History, a: Ack, who: int)
    requires HistoryOK(h) && a.peer == who
    ensures HistoryOK(WithMisled(h, a)) && LogsGrow(h, WithMisled(h, a), who)
    ensures Misled(WithMisled(h, a), a.peer, a.term, a.upto)
  {
    var k := WithMisled(h, a);
    MisledGrows(h, a);
    SameLogs(h, k, who);
    forall t | t in k.wins ensures WinOK(k, t) { assert WinOK(h, t); }
    forall b, t, i | b in k.ballots && Acked(k, b.voter, t, i) && t < b.term && CurrentTermEntry(k, t, i)
      ensures (b.term, b.cand) in k.campaigns && Kept(k, k.campaigns[(b.term, b.cand)], t, i, b.term)
    {
      assert Acked(h, b.voter, t, i) && CurrentTermEntry(h, t, i);
      KeptGrows(h, k, who, h.campaigns[(b.term, b.cand)], t, i, b.term);
    }
    forall u, p, t, i | u in k.wins && p in k.wins[u].voters && Acked(k, p, t, i) && t < u && CurrentTermEntry(k, t, i)
      ensures u in k.logs && Kept(k, k.logs[u], t, i, u - 1)
    {
      assert Acked(h, p, t, i) && CurrentTermEntry(h, t, i);
      KeptGrows(h, k, who, h.logs[u], t, i, u - 1);
    }
  }

  /** A candidate of the term in which a snapshot arrives has lost already. */
  lemma BackgroundStep(h: History, n: Node, term: int)
    requires NodeVotes(h, n) && NodeLogs(h, n) && term in h.wins && h.wins[term].leader != n.id && term >= n.currentTerm
    ensures var n1 := if term > n.currentTerm then BecomeFollower(n, term, h.wins[term].leader) else n;
            n1.role != Leader && n1.currentTerm in h.wins && n1.currentTerm == term &&
            NodeVotes(h, n1) && NodeLogs(h, n1)
  {
    if term > n.currentTerm {
      StepDownKeepsLogs(h, n, BecomeFollower(n, term, h.wins[term].leader));
      StepDownKeepsVotes(h, n, term, h.wins[term].leader);
    }
  }

  /** A node that does not lead, in a term that has a leader, with another log. */
  lemma NotLeading(h: History, n: Node, log: Log, snap: Option<Snapshot>)
    requires NodeLogs(h, n) && n.role != Leader && n.currentTerm in h.wins && Held(h, n.id, log, n.currentTerm)
    requires n.log.committed <= log.committed
    requires snap.Some? ==> SnapOK(h, snap.value, n.currentTerm)
    ensures NodeLogs(h, n.(log := log, snapshot := snap))
    ensures NodeLogs(h, Persist(n.(log := log, snapshot := snap)))
  {
  }

  lemma NotLeadingMisled(h: History, n: Node, a: Ack)
    requires HistoryOK(h) && NodeLogs(h, n) && NotInOffice(h, n) && a.peer == n.id && a.term == n.currentTerm
    ensures HistoryOK(WithMisled(h, a)) && LogsGrow(h, WithMisled(h, a), n.id) && NodeLogs(WithMisled(h, a), n)
    ensures Misled(WithMisled(h, a), a.peer, a.term, a.upto)
  {
    var k := WithMisled(h, a);
    MisledKeepsHistory(h, a, n.id);
    LogOKGrows(h, k, n.id, n.log.full);
    SafeGrows(h, k, n.id, n.log.full, n.log.committed + 1, n.currentTerm);
    forall t, i | Acked(k, n.id, t, i) && 0 <= i
      ensures t <= n.currentTerm && Kept(k, n.log.full, t, i, n.currentTerm)
    {
      assert Acked(h, n.id, t, i);
      KeptGrows(h, k, n.id, n.log.full, t, i, n.currentTerm);
    }
    if n.snapshot.Some? { SnapOKGrows(h, k, n.id, n.snapshot.value, n.currentTerm); }
  }

  /** The node, after the term rules of `handleInstallSnapshot`. */
  ghost function InstallTerm(n: Node, m: InstallArgs): Node {
    if m.term > n.currentTerm then BecomeFollower(n, m.term, m.leaderId) else n
  }

  /** What a branch of `handleInstallSnapshot` that ends in node `n` owes the invariant. */
  ghost predicate Installed(h: History, n: Node, m: InstallArgs, k: History) {
    LogsGrow(h, k, n.id) && HistoryOK(k) && NodeLogs(k, n) &&
    (Acked(k, n.id, m.term, m.snapshot.index) || Misled(k, n.id, m.term, m.snapshot.index))
  }

  lemma InstallKnown(h: History, n1: Node, m: InstallArgs)
    requires HistoryOK(h) && NodeVotes(h, n1) && NodeLogs(h, n1) && InstallOK(h, m)
    requires n1.currentTerm == m.term && NotInOffice(h, n1)
    requires m.snapshot.index <= n1.log.committed || n1.log.MatchLog(m.snapshot.index, m.snapshot.term)
    ensures Installed(h, n1.(log := n1.log.CommitTo(m.snapshot.index)), m,
            WithAck(h, Ack(m.term, n1.id, m.snapshot.index)))
  {
    InstallAgrees(h, n1.log, m.term, m);
    FastForwardHeld(h, n1.id, n1.log, m);
    var n2 := n1.(log := n1.log.CommitTo(m.snapshot.index));
    Acknowledges(h, n2, Ack(m.term, n1.id, m.snapshot.index));
  }

  lemma InstallCleared(h: History, n1: Node, m: InstallArgs)
    requires HistoryOK(h) && NodeVotes(h, n1) && NodeLogs(h, n1) && InstallOK(h, m)
    requires n1.currentTerm == m.term && NotInOffice(h, n1) && m.term in h.wins
    requires m.snapshot.index > n1.log.LastIndex()
    ensures Installed(h, PersistWith(n1.(log := n1.log.Clear(m.snapshot)), m.snapshot), m,
                      WithAck(h, Ack(m.term, n1.id, m.snapshot.index)))
  {
    ClearedHeld(h, n1.id, n1.log, m);
    NotLeading(h, n1, n1.log.Clear(m.snapshot), Some(m.snapshot));
    Acknowledges(h, PersistWith(n1.(log := n1.log.Clear(m.snapshot)), m.snapshot),
        Ack(m.term, n1.id, m.snapshot.index));
  }

  lemma InstallCompacted(h: History, n1: Node, m: InstallArgs)
    requires HistoryOK(h) && NodeVotes(h, n1) && NodeLogs(h, n1) && InstallOK(h, m)
    requires n1.currentTerm == m.term && NotInOffice(h, n1) && m.term in h.wins
    ensures Installed(h, PersistWith(n1.(log := n1.log.Compact(m.snapshot.index)), m.snapshot), m,
                      WithMisled(h, Ack(m.term, n1.id, m.snapshot.index)))
  {
    CompactedHeld(h, n1.id, n1.log, m.term, m.snapshot.index);
    NotLeading(h, n1, n1.log.Compact(m.snapshot.index), Some(m.snapshot));
    NotLeadingMisled(h, PersistWith(n1.(log := n1.log.Compact(m.snapshot.index)), m.snapshot),
                     Ack(m.term, n1.id, m.snapshot.index));
  }

  /** Each branch, given that the node's term is the message's. */
  lemma InstallBranches(h: History, n1: Node, m: InstallArgs)
    requires HistoryOK(h) && NodeVotes(h, n1) && NodeLogs(h, n1) && InstallOK(h, m)
    requires n1.currentTerm == m.term && n1.role != Leader && m.term in h.wins
    ensures var (n2, branch) := InstallSnapshot(n1, m.snapshot);
            Installed(h, n2, m, AfterInstall(h, n1.id, m, branch)) && !branch.Stale? && n2.id == n1.id
  {
    var snap, log := m.snapshot, n1.log;
    if snap.index <= log.committed || log.MatchLog(snap.index, snap.term) {
      InstallKnown(h, n1, m);
    } else if snap.index > log.LastIndex() {
      InstallCleared(h, n1, m);
    } else {
      InstallCompacted(h, n1, m);
    }
  }

  lemma FastForwardHeld(h: History, id: int, log: Log, m: InstallArgs)
    requires HistoryOK(h) && Held(h, id, log, m.term) && InstallOK(h, m)
    requires Agree(log.full, h.logs[m.term], m.snapshot.index + 1)
    ensures Held(h, id, log.CommitTo(m.snapshot.index), m.term)
  {
    SafeTransfer(h, m.snapshot.prefix, m.snapshot.index + 1, m.term, log.full, m.snapshot.index + 1, m.term);
  }

  lemma InstallHandled(h: History, n: Node, m: InstallArgs)
    requires HistoryOK(h) && NodeVotes(h, n) && NodeLogs(h, n)
    requires FromLeader(h, m.term, m.leaderId, n.id) && InstallOK(h, m)
    ensures var (n1, reply, branch) := HandleInstallSnapshot(n, m);
            StepOK(h, n1, {InstallResp(m.leaderId, n.id, m, reply, branch)}, AfterInstall(h, n.id, m, branch)) &&
            n1.id == n.id
  {
    var (n1, reply, branch) := HandleInstallSnapshot(n, m);
    if m.term < n.currentTerm {
      AnswerOK(h, n, InstallResp(m.leaderId, n.id, m, reply, branch));
    } else {
      BackgroundStep(h, n, m.term);
      InstallBranches(h, InstallTerm(n, m), m);
      InstallFinished(h, n1, m, reply, branch, AfterInstall(h, n.id, m, branch));
    }
  }

  lemma InstallFinished(h: History, n1: Node, m: InstallArgs, reply: InstallReply, branch: Branch, k: History)
    requires Installed(h, n1, m, k) && InstallOK(h, m) && !branch.Stale?
    ensures StepOK(h, n1, {InstallResp(m.leaderId, n1.id, m, reply, branch)}, k)
  {
    InstallOKGrows(h, k, n1.id, m);
  }

  lemma InstallReqParts(s: System, m: Msg)
    requires LogsInv(s) && m in s.msgs && m.InstallReq?
    ensures FromLeader(s.h, m.install.term, m.install.leaderId, m.to) && InstallOK(s.h, m.install)
  {
    MsgPart(s, m);
  }

  lemma InstallReqKeepsLogs(s: System, n: Node, m: Msg)
    requires LogsInv(s) && n.id in s.nodes && n == s.nodes[n.id] && m in s.msgs && m.InstallReq? && m.to == n.id
    ensures LogsInv(OnInstallReq(s, n, m.install))
  {
    NodeParts(s, n);
    InstallReqParts(s, m);
    InstallReqKeepsVotes(s, n, m);
    InstallHandled(s.h, n, m.install);
    var (n1, reply, branch) := HandleInstallSnapshot(n, m.install);
    FinishStep(s, n1, {InstallResp(m.install.leaderId, n.id, m.install, reply, branch)},
               AfterInstall(s.h, n.id, m.install, branch));
  }

  lemma InstallReplyHandled(h: History, n: Node, m: Msg)
    requires HistoryOK(h) && NodeVotes(h, n) && NodeLogs(h, n) && m.InstallResp? && MsgLogs(h, m) && m.from in n.peers
    ensures NodeLogs(h, HandleInstallReply(n, m.from, m.offered, m.installReply))
  {
    var t, snap := n.currentTerm, m.offered.snapshot;
    if n.role == Leader && m.offered.term == t {
      if m.installReply.term > t {
        StepDownKeepsLogs(h, n, BecomeFollower(n, m.installReply.term, m.installReply.leaderId));
      } else {
        var next, held := n.nextIndex[m.from], n.matchIndex[m.from];
        var next1, held1 := if snap.index > next then snap.index + 1 else next, Max(held, snap.index);
        assert HandleInstallReply(n, m.from, m.offered, m.installReply) == Moved(n, m.from, next1, held1);
        SafeTransfer(h, snap.prefix, |snap.prefix|, t, h.logs[t], snap.index + 1, t);
        MatchMoved(h, n, m.from, next1, held1);
      }
    }
  }

  lemma InstallRespKeepsLogs(s: System, n: Node, m: Msg)
    requires LogsInv(s) && n.id in s.nodes && n == s.nodes[n.id] && m in s.msgs && m.InstallResp?
    ensures LogsInv(OnDeliver(s, n, m))
  {
    NodeParts(s, n);
    ReplyKeepsVotes(s, n, m);
    if m.from in n.peers {
      MsgPart(s, m);
      InstallReplyHandled(s.h, n, m);
      var n1 := HandleInstallReply(n, m.from, m.offered, m.installReply);
      assert OnDeliver(s, n, m) == Update(s, n1, {}, s.h);
      QuietStep(s, n1);
    }
  }

  // ----- elections

  lemma CampaignKeepsHistory(h: History, n: Node, term: int)
    requires HistoryOK(h) && NodeVotes(h, n) && NodeLogs(h, n) && term == n.currentTerm + 1
    requires VotesOK(WithCampaign(h, term, n.id, n.log.full))
    ensures var k := WithCampaign(h, term, n.id, n.log.full); HistoryOK(k) && LogsGrow(h, k, n.id)
  {
    var k := WithCampaign(h, term, n.id, n.log.full);
    assert LogsGrow(h, k, n.id);
    forall t | t in k.logs ensures LogOK(k, k.logs[t]) { LogOKGrows(h, k, n.id, h.logs[t]); }
    forall c | c in k.campaigns ensures LogOK(k, k.campaigns[c]) { LogOKGrows(h, k, n.id, k.campaigns[c]); }
    forall b, t, i | b in k.ballots && Acked(k, b.voter, t, i) && t < b.term && CurrentTermEntry(k, t, i)
      ensures (b.term, b.cand) in k.campaigns && Kept(k, k.campaigns[(b.term, b.cand)], t, i, b.term)
    {
      assert Acked(h, b.voter, t, i) && CurrentTermEntry(h, t, i);
      if b in h.ballots {
        KeptGrows(h, k, n.id, h.campaigns[(b.term, b.cand)], t, i, b.term);
      } else {
        KeptGrows(h, k, n.id, n.log.full, t, i, n.currentTerm);
      }
    }
    SameWinners(h, k, n.id);
  }

  /** `WinnersOK` and `AcksOK` when neither wins, logs nor acknowledgements change. */
  lemma SameWinners(h: History, k: History, who: int)
    requires HistoryOK(h) && LogsGrow(h, k, who) && k.logs == h.logs && k.wins == h.wins && k.acks == h.acks
    ensures WinnersOK(k) && AcksOK(k)
  {
    forall u, p, t, i | u in k.wins && p in k.wins[u].voters && Acked(k, p, t, i) && t < u && CurrentTermEntry(k, t, i)
      ensures u in k.logs && Kept(k, k.logs[u], t, i, u - 1)
    {
      assert Acked(h, p, t, i) && CurrentTermEntry(h, t, i);
      KeptGrows(h, k, who, h.logs[u], t, i, u - 1);
    }
  }

  /** `Held` when the history grows by something other than this node's acknowledgements. */
  lemma HeldWithMore(h: History, k: History, id: int, log: Log, term: int, later: int)
    requires LogsOK(h) && LogsGrow(h, k, id) && Held(h, id, log, term) && term <= later
    requires k.acks == h.acks && k.misled == h.misled
    requires forall c :: c in k.campaigns && c.1 == id ==> c.0 <= later
    ensures Held(k, id, log, later)
  {
    LogOKGrows(h, k, id, log.full);
    SafeGrows(h, k, id, log.full, log.committed + 1, term);
    SafeTransfer(k, log.full, log.committed + 1, term, log.full, log.committed + 1, later);
    forall t, i | Acked(k, id, t, i) && 0 <= i ensures t <= later && Kept(k, log.full, t, i, later) {
      assert Acked(h, id, t, i);
      KeptGrows(h, k, id, log.full, t, i, term);
      KeptLater(k, log.full, t, i, term, later);
    }
  }

  lemma TimeoutNodeLogs(h: History, n: Node, k: History)
    requires HistoryOK(h) && NodeVotes(h, n) && NodeLogs(h, n) && LogsGrow(h, k, n.id)
    requires k == WithCampaign(h, n.currentTerm + 1, n.id, n.log.full)
    ensures NodeLogs(k, ElectionTimeout(n).0)
  {
    var t := n.currentTerm + 1;
    HeldWithMore(h, k, n.id, n.log, n.currentTerm, t);
    if n.snapshot.Some? {
      SnapOKGrows(h, k, n.id, n.snapshot.value, n.currentTerm);
      SnapLater(k, n.snapshot.value, n.currentTerm, t);
    }
  }

  lemma TimeoutHandled(h: History, n: Node)
    requires HistoryOK(h) && NodeVotes(h, n) && NodeLogs(h, n) && n.role != Leader
    requires VotesOK(WithCampaign(h, n.currentTerm + 1, n.id, n.log.full))
    ensures var (n1, request) := ElectionTimeout(n);
            StepOK(h, n1, set p | p in n.peers :: VoteReq(p, request),
                WithCampaign(h, n.currentTerm + 1, n.id, n.log.full))
  {
    var t := n.currentTerm + 1;
    CampaignKeepsHistory(h, n, t);
    TimeoutNodeLogs(h, n, WithCampaign(h, t, n.id, n.log.full));
  }

  lemma TimeoutKeepsLogs(s: System, n: Node)
    requires LogsInv(s) && n.id in s.nodes && n == s.nodes[n.id]
    ensures LogsInv(OnTimeout(s, n))
  {
    if n.role != Leader {
      NodeParts(s, n);
      TimeoutKeepsVotes(s, n);
      TimeoutHandled(s.h, n);
      var (n1, request) := ElectionTimeout(n);
      FinishStep(s, n1, set p | p in n.peers :: VoteReq(p, request),
          WithCampaign(s.h, n.currentTerm + 1, n.id, n.log.full));
    }
  }

  lemma BallotKeepsHistory(h: History, b: Ballot, who: int)
    requires HistoryOK(h) && VotesOK(WithBallot(h, b)) && b.voter == who && LogsGrow(h, WithBallot(h, b), who)
    requires forall t, i :: Acked(h, who, t, i) && t < b.term && CurrentTermEntry(h, t, i) ==>
               (b.term, b.cand) in h.campaigns && Kept(h, h.campaigns[(b.term, b.cand)], t, i, b.term)
    ensures HistoryOK(WithBallot(h, b))
  {
    var k := WithBallot(h, b);
    SameLogs(h, k, who);
    forall c, t, i | c in k.ballots && Acked(k, c.voter, t, i) && t < c.term && CurrentTermEntry(k, t, i)
      ensures (c.term, c.cand) in k.campaigns && Kept(k, k.campaigns[(c.term, c.cand)], t, i, c.term)
    {
      assert Acked(h, c.voter, t, i) && CurrentTermEntry(h, t, i);
      KeptGrows(h, k, who, h.campaigns[(c.term, c.cand)], t, i, c.term);
    }
    SameWinners(h, k, who);
  }

  lemma BallotGrows(h: History, b: Ballot)
    requires VotesGrow(h, WithBallot(h, b), b.voter)
    ensures LogsGrow(h, WithBallot(h, b), b.voter)
  {
  }

  lemma VoteGranted(h: History, n: Node, m: Msg, n1: Node)
    requires HistoryOK(h) && NodeLogs(h, n) && m.VoteReq? && MsgLogs(h, m) && n.currentTerm <= m.vote.term
    requires n.log.IsUpToDate(m.vote.lastLogIndex, m.vote.lastLogTerm)
    requires var b := Ballot(m.vote.term, n.id, m.vote.candidateId);
             VotesOK(WithBallot(h, b)) && VotesGrow(h, WithBallot(h, b), n.id)
    requires n1.id == n.id && n1.log == n.log && n1.snapshot == n.snapshot && n1.hard.commit <= n.log.committed
    requires n.currentTerm <= n1.currentTerm
    requires n1.role == Follower || (n1.role == n.role && n1.currentTerm == n.currentTerm &&
                                     n1.nextIndex == n.nextIndex && n1.matchIndex == n.matchIndex &&
                                         n1.peers == n.peers)
    ensures StepOK(h, n1, {}, WithBallot(h, Ballot(m.vote.term, n.id, m.vote.candidateId)))
  {
    var b := Ballot(m.vote.term, n.id, m.vote.candidateId);
    BallotGrows(h, b);
    GrantBuys(h, n, m.vote);
    BallotKeepsHistory(h, b, n.id);
    GrantedNode(h, WithBallot(h, b), n, n1);
  }

  lemma VoteReqHandled(h: History, n: Node, m: Msg)
    requires HistoryOK(h) && NodeVotes(h, n) && NodeLogs(h, n) && m.VoteReq? && MsgLogs(h, m)
    requires var (n1, reply) := HandleRequestVote(n, m.vote);
             VotesOK(AfterVote(h, n.id, m.vote, reply)) && VotesGrow(h, AfterVote(h, n.id, m.vote, reply), n.id)
    ensures var (n1, reply) := HandleRequestVote(n, m.vote);
            StepOK(h, n1, {VoteResp(m.vote.candidateId, n.id, m.vote, reply)}, AfterVote(h, n.id, m.vote, reply)) &&
            n1.id == n.id
  {
    var (n1, reply) := HandleRequestVote(n, m.vote);
    if reply.voteGranted {
      VoteGranted(h, n, m, n1);
    } else {
      if m.vote.term > n.currentTerm { StepDownKeepsLogs(h, n, BecomeFollower(n, m.vote.term, NONE)); }
      AnswerOK(h, n1, VoteResp(m.vote.candidateId, n.id, m.vote, reply));
    }
  }

  lemma GrantBuys(h: History, n: Node, request: VoteArgs)
    requires HistoryOK(h) && NodeLogs(h, n) && n.currentTerm <= request.term
    requires (request.term, request.candidateId) in h.campaigns
    requires var x := h.campaigns[(request.term, request.candidateId)];
             |x| > 0 && request.lastLogIndex == |x| - 1 && request.lastLogTerm == x[|x| - 1].term
    requires n.log.IsUpToDate(request.lastLogIndex, request.lastLogTerm)
    ensures forall t, i :: Acked(h, n.id, t, i) && t < request.term && CurrentTermEntry(h, t, i) ==>
              Kept(h, h.campaigns[(request.term, request.candidateId)], t, i, request.term)
  {
    var x := h.campaigns[(request.term, request.candidateId)];
    forall t, i | Acked(h, n.id, t, i) && t < request.term && CurrentTermEntry(h, t, i)
      ensures Kept(h, x, t, i, request.term)
    {
      VoteBuys(h, n.log, x, t, i, request.term, n.currentTerm);
    }
  }

  /** A voter's logs are as before; only its term may have risen. */
  lemma GrantedNode(h: History, k: History, n: Node, n1: Node)
    requires HistoryOK(h) && NodeLogs(h, n) && LogsGrow(h, k, n.id)
    requires k.acks == h.acks && k.misled == h.misled && k.campaigns == h.campaigns && k.logs == h.logs &&
             k.wins == h.wins
    requires n1.id == n.id && n1.log == n.log && n1.snapshot == n.snapshot && n1.hard.commit <= n.log.committed
    requires n.currentTerm <= n1.currentTerm
    requires n1.role == Follower || (n1.role == n.role && n1.currentTerm == n.currentTerm &&
                                     n1.nextIndex == n.nextIndex && n1.matchIndex == n.matchIndex &&
                                         n1.peers == n.peers)
    ensures NodeLogs(k, n1)
  {
    HeldWithMore(h, k, n.id, n.log, n.currentTerm, n1.currentTerm);
    if n.snapshot.Some? {
      SnapOKGrows(h, k, n.id, n.snapshot.value, n.currentTerm);
      SnapLater(k, n.snapshot.value, n.currentTerm, n1.currentTerm);
    }
    if n1.role == Leader {
      forall p | p in n.peers ensures MatchOK(k, p, n.currentTerm, n.matchIndex[p]) {
        MatchGrows(h, k, n.id, p, n.currentTerm, n.matchIndex[p]);
      }
    }
  }

  lemma VoteReqKeepsLogs(s: System, n: Node, m: Msg)
    requires LogsInv(s) && n.id in s.nodes && n == s.nodes[n.id] && m in s.msgs && m.VoteReq? && m.to == n.id
    ensures LogsInv(OnVoteReq(s, n, m.vote))
  {
    NodeParts(s, n);
    MsgPart(s, m);
    VoteReqKeepsVotes(s, n, m);
    VoteReqHandled(s.h, n, m);
    var (n1, reply) := HandleRequestVote(n, m.vote);
    assert OnVoteReq(s, n, m.vote) ==
           Update(s, n1, {VoteResp(m.vote.candidateId, n.id, m.vote, reply)}, AfterVote(s.h, n.id, m.vote, reply));
    FinishStep(s, n1, {VoteResp(m.vote.candidateId, n.id, m.vote, reply)}, AfterVote(s.h, n.id, m.vote, reply));
  }

  // ----- winning

  lemma WinGrows(h: History, n: Node, granted: set<int>)
    requires LogsOK(h) && n.currentTerm !in h.wins && n.currentTerm > 0
    ensures LogsGrow(h, WithWin(h, n.currentTerm, Win(n.id, granted), n.log.full), n.id)
    ensures n.currentTerm !in h.logs
  {
  }

  lemma WinKeepsLogs(h: History, n: Node, granted: set<int>)
    requires HistoryOK(h) && NodeLogs(h, n) && n.currentTerm !in h.wins && n.currentTerm > 0
    ensures var k := WithWin(h, n.currentTerm, Win(n.id, granted), n.log.full);
            LogsOK(k) && CampaignsOK(k) && AcksOK(k)
  {
    var k := WithWin(h, n.currentTerm, Win(n.id, granted), n.log.full);
    WinGrows(h, n, granted);
    forall t | t in k.logs ensures LogOK(k, k.logs[t]) { LogOKGrows(h, k, n.id, k.logs[t]); }
    forall c | c in k.campaigns ensures LogOK(k, k.campaigns[c]) { LogOKGrows(h, k, n.id, h.campaigns[c]); }
  }

  lemma WinKeepsBallots(h: History, n: Node, granted: set<int>)
    requires HistoryOK(h) && NodeLogs(h, n) && n.currentTerm !in h.wins && n.currentTerm > 0
    ensures BallotsOK(WithWin(h, n.currentTerm, Win(n.id, granted), n.log.full))
  {
    var k := WithWin(h, n.currentTerm, Win(n.id, granted), n.log.full);
    WinGrows(h, n, granted);
    forall b, t, i | b in k.ballots && Acked(k, b.voter, t, i) && t < b.term && CurrentTermEntry(k, t, i)
      ensures (b.term, b.cand) in k.campaigns && Kept(k, k.campaigns[(b.term, b.cand)], t, i, b.term)
    {
      OldAck(h, k, b.voter, t, i);
      KeptGrows(h, k, n.id, h.campaigns[(b.term, b.cand)], t, i, b.term);
    }
  }

  /** An acknowledgement names a term that had a leader already. */
  lemma OldAck(h: History, k: History, p: int, t: int, i: int)
    requires AcksOK(h) && k.acks == h.acks && Acked(k, p, t, i) && CurrentTermEntry(k, t, i)
    requires t in h.logs ==> k.logs[t] == h.logs[t]
    ensures Acked(h, p, t, i) && CurrentTermEntry(h, t, i)
  {
  }

  /** The votes a new leader counted were all cast before its term had a leader. */
  lemma VotersKeep(h: History, n: Node, p: int, t: int, i: int)
    requires HistoryOK(h) && n.currentTerm !in h.logs && CandidateLogs(h, n)
    requires Ballot(n.currentTerm, p, n.id) in h.ballots
    requires Acked(h, p, t, i) && t < n.currentTerm && CurrentTermEntry(h, t, i)
    ensures Kept(h, n.log.full, t, i, n.currentTerm - 1)
  {
    assert Kept(h, h.campaigns[(n.currentTerm, n.id)], t, i, n.currentTerm);
  }

  lemma WinKeepsWinners(h: History, n: Node, granted: set<int>)
    requires HistoryOK(h) && NodeLogs(h, n) && CandidateLogs(h, n) && n.currentTerm !in h.wins && n.currentTerm > 0
    requires forall p :: p in granted ==> Ballot(n.currentTerm, p, n.id) in h.ballots
    ensures WinnersOK(WithWin(h, n.currentTerm, Win(n.id, granted), n.log.full))
  {
    var k := WithWin(h, n.currentTerm, Win(n.id, granted), n.log.full);
    WinGrows(h, n, granted);
    forall u, p, t, i | u in k.wins && p in k.wins[u].voters && Acked(k, p, t, i) && t < u && CurrentTermEntry(k, t, i)
      ensures u in k.logs && Kept(k, k.logs[u], t, i, u - 1)
    {
      OldAck(h, k, p, t, i);
      if u == n.currentTerm {
        VotersKeep(h, n, p, t, i);
        KeptGrows(h, k, n.id, n.log.full, t, i, u - 1);
      } else {
        KeptGrows(h, k, n.id, h.logs[u], t, i, u - 1);
      }
    }
  }

  lemma WinnerNode(h: History, n: Node, granted: set<int>)
    requires HistoryOK(h) && NodeVotes(h, n) && NodeLogs(h, n) && CandidateLogs(h, n)
    requires n.currentTerm !in h.wins && n.currentTerm > 0
    ensures NodeLogs(WithWin(h, n.currentTerm, Win(n.id, granted), n.log.full), BecomeLeader(n.(granted := granted)))
  {
    var t, k := n.currentTerm, WithWin(h, n.currentTerm, Win(n.id, granted), n.log.full);
    WinGrows(h, n, granted);
    HeldWithMore(h, k, n.id, n.log, t, t);
    assert TermsUpTo(n.log.full, t - 1);
    if n.snapshot.Some? { SnapOKGrows(h, k, n.id, n.snapshot.value, t); }
  }

  lemma VoteRespWins(s: System, n: Node, m: Msg)
    requires LogsInv(s) && n.id in s.nodes && n == s.nodes[n.id] && m in s.msgs && m.VoteResp? && m.to == n.id
    requires n.role == Candidate && HandleVoteReply(n, m.from, m.asked, m.voteReply).role == Leader
    requires VotesInv(OnVoteResp(s, n, m.from, m.asked, m.voteReply))
    ensures LogsInv(OnVoteResp(s, n, m.from, m.asked, m.voteReply))
  {
    NodeParts(s, n);
    MsgPart(s, m);
    WonElection(s.h, n, m.from, m.asked, m.voteReply);
    var granted := HandleVoteReply(n, m.from, m.asked, m.voteReply).granted;
    var k := WithWin(s.h, n.currentTerm, Win(n.id, granted), n.log.full);
    assert OnVoteResp(s, n, m.from, m.asked, m.voteReply) == Update(s, BecomeLeader(n.(granted := granted)), {}, k);
    WinKeepsLogs(s.h, n, granted);
    WinKeepsBallots(s.h, n, granted);
    WinKeepsWinners(s.h, n, granted);
    WinnerNode(s.h, n, granted);
    WinGrows(s.h, n, granted);
    CloseLogs(s, BecomeLeader(n.(granted := granted)), {}, k);
  }

  lemma VoteCounted(h: History, n: Node, from: int, asked: VoteArgs, reply: VoteReply)
    requires NodeLogs(h, n) && (n.role == Candidate ==> HandleVoteReply(n, from, asked, reply).role != Leader)
    ensures NodeLogs(h, HandleVoteReply(n, from, asked, reply))
  {
    if n.role == Candidate && n.currentTerm == asked.term && !reply.voteGranted && reply.term > n.currentTerm {
      StepDownKeepsLogs(h, n, BecomeFollower(n, reply.term, reply.leaderId));
    }
  }

  lemma VoteRespKeepsLogs(s: System, n: Node, m: Msg)
    requires LogsInv(s) && n.id in s.nodes && n == s.nodes[n.id] && m in s.msgs && m.VoteResp? && m.to == n.id
    ensures LogsInv(OnVoteResp(s, n, m.from, m.asked, m.voteReply))
  {
    VoteRespKeepsVotes(s, n, m);
    var n1 := HandleVoteReply(n, m.from, m.asked, m.voteReply);
    if n.role == Candidate && n1.role == Leader {
      VoteRespWins(s, n, m);
    } else {
      NodeParts(s, n);
      VoteCounted(s.h, n, m.from, m.asked, m.voteReply);
      assert OnVoteResp(s, n, m.from, m.asked, m.voteReply) == Update(s, n1, {}, s.h);
      QuietStep(s, n1);
    }
  }

  // ----- proposing

  lemma EntryKeepsLogs(h: History, t: int, e: Entry, who: int)
    requires HistoryOK(h) && t in h.wins && h.wins[t].leader == who && e.term == t
    ensures var k := WithEntry(h, t, e); LogsGrow(h, k, who) && LogsOK(k) && CampaignsOK(k) && AcksOK(k)
  {
    var k := WithEntry(h, t, e);
    assert LogsGrow(h, k, who);
    forall u | u in k.logs ensures LogOK(k, k.logs[u]) && TermsUpTo(k.logs[u], u) {
      LogOKGrows(h, k, who, h.logs[u]);
      assert TermsUpTo(h.logs[u], u);
      if u == t { LongerOK(k, h.logs[t], e); }
    }
    forall c | c in k.campaigns ensures LogOK(k, k.campaigns[c]) { LogOKGrows(h, k, who, h.campaigns[c]); }
  }

  lemma NewEntryNotAcked(h: History, k: History, p: int, t: int, i: int)
    requires AcksOK(h) && k.acks == h.acks && Acked(k, p, t, i) && CurrentTermEntry(k, t, i)
    requires t in h.logs ==> Extends(h.logs[t], k.logs[t], t)
    ensures Acked(h, p, t, i) && CurrentTermEntry(h, t, i)
  {
  }

  lemma EntryKeepsHistory(h: History, t: int, e: Entry, who: int)
    requires HistoryOK(h) && t in h.wins && h.wins[t].leader == who && e.term == t
    ensures HistoryOK(WithEntry(h, t, e)) && LogsGrow(h, WithEntry(h, t, e), who)
  {
    var k := WithEntry(h, t, e);
    EntryKeepsLogs(h, t, e, who);
    forall u | u in k.wins ensures WinOK(k, u) { assert WinOK(h, u); }
    forall b, u, i | b in k.ballots && Acked(k, b.voter, u, i) && u < b.term && CurrentTermEntry(k, u, i)
      ensures (b.term, b.cand) in k.campaigns && Kept(k, k.campaigns[(b.term, b.cand)], u, i, b.term)
    {
      NewEntryNotAcked(h, k, b.voter, u, i);
      KeptGrows(h, k, who, h.campaigns[(b.term, b.cand)], u, i, b.term);
    }
    forall w, p, u, i | w in k.wins && p in k.wins[w].voters && Acked(k, p, u, i) && u < w && CurrentTermEntry(k, u, i)
      ensures w in k.logs && Kept(k, k.logs[w], u, i, w - 1)
    {
      NewEntryNotAcked(h, k, p, u, i);
      KeptGrows(h, k, who, h.logs[w], u, i, w - 1);
      assert Extends(h.logs[w], k.logs[w], w);
    }
  }

  lemma LongerHeld(h: History, k: History, id: int, log: Log, t: int, e: Entry)
    requires HistoryOK(h) && Held(h, id, log, t) && t in h.wins && h.wins[t].leader == id && e.term == t >= 0
    requires h.logs[t] == log.full && k == WithEntry(h, t, e) && LogsGrow(h, k, id)
    ensures Held(k, id, log.(full := log.full + [e]), t)
  {
    HeldWithMore(h, k, id, log, t, t);
    LongerOK(k, log.full, e);
    SafeTransfer(k, log.full, log.committed + 1, t, log.full + [e], log.committed + 1, t);
    forall u, i | Acked(k, id, u, i) && 0 <= i ensures u <= t && Kept(k, log.full + [e], u, i, t) {
      assert Kept(k, log.full, u, i, t);
    }
  }

  lemma ProposerLeads(h: History, k: History, n: Node, n1: Node, e: Entry)
    requires HistoryOK(h) && NodeVotes(h, n) && NodeLogs(h, n) && n.role == Leader && e.term == n.currentTerm
    requires k == WithEntry(h, n.currentTerm, e) && LogsGrow(h, k, n.id)
    requires n1 == n.(log := n.log.(full := n.log.full + [e]))
    ensures LeaderLogs(k, n1)
  {
    forall p | p in n.peers ensures MatchOK(k, p, n.currentTerm, n.matchIndex[p]) {
      MatchGrows(h, k, n.id, p, n.currentTerm, n.matchIndex[p]);
    }
  }

  lemma ProposeHandled(h: History, n: Node, data: string)
    requires HistoryOK(h) && NodeVotes(h, n) && NodeLogs(h, n) && n.role == Leader
    ensures var e := Entry(n.currentTerm, data);
            StepOK(h, n.(log := n.log.(full := n.log.full + [e])), {}, WithEntry(h, n.currentTerm, e))
  {
    var t, e := n.currentTerm, Entry(n.currentTerm, data);
    var k := WithEntry(h, t, e);
    EntryKeepsHistory(h, t, e, n.id);
    LongerHeld(h, k, n.id, n.log, t, e);
    ProposerLeads(h, k, n, n.(log := n.log.(full := n.log.full + [e])), e);
    if n.snapshot.Some? { SnapOKGrows(h, k, n.id, n.snapshot.value, t); }
  }

  lemma ProposeKeepsLogs(s: System, n: Node, data: string)
    requires LogsInv(s) && n.id in s.nodes && n == s.nodes[n.id]
    ensures LogsInv(OnPropose(s, n, data))
  {
    NodeParts(s, n);
    ProposeKeepsVotes(s, n, data);
    if n.role == Leader {
      var e := Entry(n.currentTerm, data);
      var n1 := n.(log := n.log.(full := n.log.full + [e]));
      ProposeHandled(s.h, n, data);
      assert OnPropose(s, n, data) == Update(s, n1, {}, WithEntry(s.h, n.currentTerm, e));
      FinishStep(s, n1, {}, WithEntry(s.h, n.currentTerm, e));
    } else {
      assert OnPropose(s, n, data) == Update(s, n, {}, s.h);
      QuietStep(s, n);
    }
  }
}
