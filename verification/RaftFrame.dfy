/** What the log invariants say of one node and one message, and that another node's step
    leaves both alone. */
module RaftFrame {
  import opened RaftLogSpec
  import opened RaftProtocol
  import opened RaftHistory
  import opened RaftSystem
  import opened RaftElection

  // ----- the invariant, node by node and message by message

  /** Whatever node `id` has acknowledged it still holds, unless a later leader lacked it. */
  ghost predicate Keeps(h: History, id: int, full: seq<Entry>, term: int) {
    forall t, k {:trigger Acked(h, id, t, k)} ::
      Acked(h, id, t, k) && 0 <= k ==> t <= term && Kept(h, full, t, k, term)
  }

  /** What holds of a node's log in every role. */
  ghost predicate Held(h: History, id: int, log: Log, term: int) {
    && log.Valid() && LogOK(h, log.full) && TermsUpTo(log.full, term)
    && Keeps(h, id, log.full, term)
    && Safe(h, log.full, log.committed + 1, term)
    && (forall c :: c in h.campaigns && c.1 == id ==> c.0 <= term)
    && (forall a :: a in h.misled && a.peer == id ==> a.term <= term)
  }

  /** What a match index of term `t`'s leader stands for. */
  ghost predicate MatchOK(h: History, p: int, t: int, m: int) {
    && t in h.logs && 0 <= m < |h.logs[t]|
    && (m == 0 || Acked(h, p, t, m) || (Misled(h, p, t, m) && Safe(h, h.logs[t], m + 1, t)))
  }

  /** The leader of a term has confirmed to itself no more than it has committed. */
  ghost predicate OwnAcksCommitted(h: History, id: int, term: int, committed: int) {
    forall a :: a in h.acks && a.peer == id && a.term == term ==> a.upto <= committed
  }

  ghost predicate LeaderLogs(h: History, n: Node) {
    && n.currentTerm in h.logs && h.logs[n.currentTerm] == n.log.full
    && n.nextIndex.Keys == n.peers && n.matchIndex.Keys == n.peers
    && (forall p {:trigger n.nextIndex[p]} :: p in n.peers ==> 1 <= n.nextIndex[p] <= |n.log.full|)
    && (forall p {:trigger n.matchIndex[p]} :: p in n.peers ==> MatchOK(h, p, n.currentTerm, n.matchIndex[p]))
    && OwnAcksCommitted(h, n.id, n.currentTerm, n.log.committed)
  }

  ghost predicate SnapOK(h: History, snap: Snapshot, bound: int) {
    && |snap.prefix| == snap.index + 1
    && snap.prefix[snap.index].term == snap.term
    && LogOK(h, snap.prefix)
    && Safe(h, snap.prefix, |snap.prefix|, bound)
  }

  ghost predicate CandidateLogs(h: History, n: Node) {
    (n.currentTerm, n.id) in h.campaigns && h.campaigns[(n.currentTerm, n.id)] == n.log.full
  }

  ghost predicate NodeLogs(h: History, n: Node) {
    && Held(h, n.id, n.log, n.currentTerm)
    && (n.role == Candidate && n.currentTerm !in h.wins ==> CandidateLogs(h, n))
    && (n.role == Leader ==> LeaderLogs(h, n))
    && (n.snapshot.Some? ==> SnapOK(h, n.snapshot.value, n.currentTerm))
    && n.hard.commit <= n.log.committed
  }

  /** `entries` is what follows index `prev` in `x`. */
  ghost predicate Stretch(entries: seq<Entry>, x: seq<Entry>, prev: int) {
    && 0 <= prev && prev + |entries| < |x|
    && forall k :: 0 <= k < |entries| ==> entries[k] == x[prev + 1 + k]
  }

  /** The message carries a stretch of its term's log. */
  ghost predicate Carries(h: History, m: AppendArgs) {
    && m.term in h.logs
    && Stretch(m.entries, h.logs[m.term], m.prevLogIndex)
    && m.prevLogTerm == h.logs[m.term][m.prevLogIndex].term
  }

  /** And a commit index that is safe there. */
  ghost predicate AppendOK(h: History, m: AppendArgs) {
    && Carries(h, m)
    && 0 <= m.leaderCommit && Safe(h, h.logs[m.term], m.leaderCommit + 1, m.term)
  }

  ghost predicate InstallOK(h: History, m: InstallArgs) {
    && m.term in h.logs
    && SnapOK(h, m.snapshot, m.term)
    && Agree(m.snapshot.prefix, h.logs[m.term], |m.snapshot.prefix|)
  }

  ghost predicate MsgLogs(h: History, m: Msg) {
    match m
    case VoteReq(to, args) =>
      && (args.term, args.candidateId) in h.campaigns
      && var x := h.campaigns[(args.term, args.candidateId)];
         |x| > 0 && args.lastLogIndex == |x| - 1 && args.lastLogTerm == x[|x| - 1].term
    case VoteResp(_, _, _, _) => true
    case AppendReq(to, args) => AppendOK(h, args)
    case AppendResp(to, from, reply) =>
      && (reply.success ==> reply.term in h.logs && 1 <= reply.nextIndex <= |h.logs[reply.term]|
                            && Acked(h, from, reply.term, reply.nextIndex - 1))
      && (!reply.success && reply.nextIndex != 0 ==>
            reply.term in h.logs && 1 <= reply.nextIndex <= |h.logs[reply.term]|)
    case InstallReq(to, args) => InstallOK(h, args)
    case InstallResp(to, from, offered, reply, branch) =>
      && InstallOK(h, offered)
      && (branch.Stale? ==> reply.term > offered.term)
      && (!branch.Stale? ==>
            Acked(h, from, offered.term, offered.snapshot.index) ||
                Misled(h, from, offered.term, offered.snapshot.index))
  }

  ghost predicate LogsInv(s: System) {
    && VotesInv(s)
    && HistoryOK(s.h)
    && (forall i :: i in s.nodes ==> NodeLogs(s.h, s.nodes[i]))
    && (forall m :: m in s.msgs ==> MsgLogs(s.h, m))
  }

  // ----- growth of the history

  /** `y` continues `x` with entries of term `t`. */
  ghost predicate Extends(x: seq<Entry>, y: seq<Entry>, t: int) {
    && Agree(x, y, |x|)
    && forall i {:trigger y[i]} :: |x| <= i < |y| ==> y[i].term == t
  }

  ghost predicate LogsGrow(h: History, k: History, who: int) {
    && VotesGrow(h, k, who)
    && (forall t {:trigger h.logs[t]} {:trigger k.logs[t]} :: t in h.logs ==>
          (t in k.logs && Extends(h.logs[t], k.logs[t], t) &&
           (k.logs[t] == h.logs[t] || (t in h.wins && h.wins[t].leader == who))))
    && (forall c :: c in h.campaigns ==> c in k.campaigns && k.campaigns[c] == h.campaigns[c])
    && (forall c :: c in k.campaigns ==> c in h.campaigns || c.1 == who)
    && h.acks <= k.acks
    && (forall a :: a in k.acks ==> a in h.acks || a.peer == who)
    && h.misled <= k.misled
    && (forall a :: a in k.misled ==> a in h.misled || a.peer == who)
  }

  /** A leader that lacks a stretch of an earlier log will always lack it: what it adds later
      has its own, higher term. */
  lemma LostGrows(h: History, k: History, who: int, t: int, i: int, bound: int)
    requires LogsOK(h) && LogsGrow(h, k, who)
    requires t in h.logs && i < |h.logs[t]| && Lost(h, t, i, bound)
    ensures Lost(k, t, i, bound)
  {
    var u :| u in h.logs && t < u <= bound && !Agree(h.logs[u], h.logs[t], i + 1);
    assert Extends(h.logs[u], k.logs[u], u) && Extends(h.logs[t], k.logs[t], t);
    assert TermsUpTo(h.logs[t], t);
    assert h.logs[t][i].term <= t;
    assert i >= |h.logs[u]| && i < |k.logs[u]| ==> k.logs[u][i].term == u;
  }

  lemma KeptGrows(h: History, k: History, who: int, x: seq<Entry>, t: int, i: int, bound: int)
    requires LogsOK(h) && LogsGrow(h, k, who) && Kept(h, x, t, i, bound)
    ensures Kept(k, x, t, i, bound)
  {
    assert Extends(h.logs[t], k.logs[t], t);
    if !Agree(x, h.logs[t], i + 1) { LostGrows(h, k, who, t, i, bound); }
  }

  lemma AckedGrows(h: History, k: History, who: int, p: int, t: int, i: int)
    requires LogsGrow(h, k, who)
    ensures Acked(h, p, t, i) ==> Acked(k, p, t, i)
    ensures Misled(h, p, t, i) ==> Misled(k, p, t, i)
    ensures p != who && Acked(k, p, t, i) ==> Acked(h, p, t, i)
  {
  }

  /** The same, whoever took the steps in between: what was chosen stays chosen. */
  ghost predicate Later(h: History, k: History) {
    && k.cluster == h.cluster
    && (forall t :: t in h.wins ==> t in k.wins)
    && (forall t {:trigger h.logs[t]} {:trigger k.logs[t]} :: t in h.logs ==>
          (t in k.logs && Agree(h.logs[t], k.logs[t], |h.logs[t]|)))
    && h.acks <= k.acks
  }

  lemma LogOKStays(h: History, k: History, x: seq<Entry>)
    requires Later(h, k) && LogOK(h, x)
    ensures LogOK(k, x)
  {
    forall i | 0 <= i < |x| ensures Anchored(k, x, i) {
      assert Anchored(h, x, i);
      var t := x[i].term;
      assert Agree(h.logs[t], k.logs[t], |h.logs[t]|);
    }
  }

  lemma LogOKGrows(h: History, k: History, who: int, x: seq<Entry>)
    requires LogsGrow(h, k, who) && LogOK(h, x)
    ensures LogOK(k, x)
  {
    GrownIsLater(h, k, who);
    LogOKStays(h, k, x);
  }

  lemma ChosenStays(h: History, k: History, t: int, i: int)
    requires Later(h, k) && Chosen(h, t, i)
    ensures Chosen(k, t, i)
  {
    var q :| Quorum(h, q) && AckedByAll(h, q, t, i);
    assert h.logs[t][i] == k.logs[t][i];
    forall p | p in q ensures Acked(k, p, t, i) { assert Acked(h, p, t, i); }
    assert Quorum(k, q) && AckedByAll(k, q, t, i);
  }

  lemma SafeStays(h: History, k: History, x: seq<Entry>, n: int, bound: int)
    requires Later(h, k) && Safe(h, x, n, bound)
    ensures Safe(k, x, n, bound)
  {
    if n > 1 {
      var t, i :| SafeBy(h, x, n, bound, t, i);
      ChosenStays(h, k, t, i);
      assert Agree(h.logs[t], k.logs[t], |h.logs[t]|);
      assert SafeBy(k, x, n, bound, t, i);
    }
  }

  lemma LaterStill(h: History, k: History, l: History)
    requires Later(h, k) && Later(k, l)
    ensures Later(h, l)
  {
    forall t | t in h.logs ensures t in l.logs && Agree(h.logs[t], l.logs[t], |h.logs[t]|) {
      assert Agree(h.logs[t], k.logs[t], |h.logs[t]|) && Agree(k.logs[t], l.logs[t], |k.logs[t]|);
    }
  }

  lemma GrownIsLater(h: History, k: History, who: int)
    requires LogsGrow(h, k, who)
    ensures Later(h, k)
  {
    forall t | t in h.logs ensures t in k.logs && Agree(h.logs[t], k.logs[t], |h.logs[t]|) {
      assert Extends(h.logs[t], k.logs[t], t);
    }
  }

  lemma SafeGrows(h: History, k: History, who: int, x: seq<Entry>, n: int, bound: int)
    requires LogsGrow(h, k, who) && Safe(h, x, n, bound)
    ensures Safe(k, x, n, bound)
  {
    GrownIsLater(h, k, who);
    SafeStays(h, k, x, n, bound);
  }

  /** Safety passes to any log with the same beginning, and to any later bound. */
  lemma SafeTransfer(h: History, x: seq<Entry>, n: int, bound: int, y: seq<Entry>, m: int, bound': int)
    requires Safe(h, x, n, bound) && m <= n && bound <= bound' && Agree(x, y, m)
    ensures Safe(h, y, m, bound')
  {
    if m > 1 {
      var t, i :| SafeBy(h, x, n, bound, t, i);
      assert SafeBy(h, y, m, bound', t, i);
    }
  }

  lemma SnapOKGrows(h: History, k: History, who: int, snap: Snapshot, bound: int)
    requires LogsGrow(h, k, who) && SnapOK(h, snap, bound)
    ensures SnapOK(k, snap, bound)
  {
    LogOKGrows(h, k, who, snap.prefix);
    SafeGrows(h, k, who, snap.prefix, |snap.prefix|, bound);
  }

  lemma KeepsGrows(h: History, k: History, who: int, id: int, full: seq<Entry>, term: int)
    requires LogsOK(h) && LogsGrow(h, k, who) && Keeps(h, id, full, term) && id != who
    ensures Keeps(k, id, full, term)
  {
    forall t, i | Acked(k, id, t, i) && 0 <= i
      ensures t <= term && Kept(k, full, t, i, term)
    {
      AckedGrows(h, k, who, id, t, i);
      KeptGrows(h, k, who, full, t, i, term);
    }
  }

  lemma HeldGrows(h: History, k: History, who: int, id: int, log: Log, term: int)
    requires LogsOK(h) && LogsGrow(h, k, who) && Held(h, id, log, term) && id != who
    ensures Held(k, id, log, term)
  {
    LogOKGrows(h, k, who, log.full);
    KeepsGrows(h, k, who, id, log.full, term);
    SafeGrows(h, k, who, log.full, log.committed + 1, term);
  }

  lemma MatchGrows(h: History, k: History, who: int, p: int, t: int, m: int)
    requires LogsGrow(h, k, who) && MatchOK(h, p, t, m)
    ensures MatchOK(k, p, t, m)
  {
    assert Extends(h.logs[t], k.logs[t], t);
    AckedGrows(h, k, who, p, t, m);
    if Safe(h, h.logs[t], m + 1, t) {
      SafeGrows(h, k, who, h.logs[t], m + 1, t);
      SafeTransfer(k, h.logs[t], m + 1, t, k.logs[t], m + 1, t);
    }
  }

  lemma LeaderLogsGrow(h: History, k: History, who: int, n: Node)
    requires LogsGrow(h, k, who) && n.id != who && LeaderLogs(h, n) && Leading(h, n)
    ensures LeaderLogs(k, n)
  {
    var t := n.currentTerm;
    assert k.logs[t] == h.logs[t];
    forall p | p in n.peers ensures MatchOK(k, p, t, n.matchIndex[p]) {
      MatchGrows(h, k, who, p, t, n.matchIndex[p]);
    }
  }

  lemma NodeLogsFrame(h: History, k: History, who: int, n: Node)
    requires LogsOK(h) && LogsGrow(h, k, who) && n.id != who && NodeLogs(h, n) && NodeVotes(h, n)
    ensures NodeLogs(k, n)
  {
    HeldGrows(h, k, who, n.id, n.log, n.currentTerm);
    if n.snapshot.Some? { SnapOKGrows(h, k, who, n.snapshot.value, n.currentTerm); }
    if n.role == Leader { LeaderLogsGrow(h, k, who, n); }
  }

  lemma AppendOKGrows(h: History, k: History, who: int, m: AppendArgs)
    requires LogsGrow(h, k, who) && AppendOK(h, m)
    ensures AppendOK(k, m)
  {
    var t := m.term;
    assert Extends(h.logs[t], k.logs[t], t);
    SafeGrows(h, k, who, h.logs[t], m.leaderCommit + 1, t);
    SafeTransfer(k, h.logs[t], m.leaderCommit + 1, t, k.logs[t], m.leaderCommit + 1, t);
  }

  lemma InstallOKGrows(h: History, k: History, who: int, m: InstallArgs)
    requires LogsGrow(h, k, who) && InstallOK(h, m)
    ensures InstallOK(k, m)
  {
    assert Extends(h.logs[m.term], k.logs[m.term], m.term);
    SnapOKGrows(h, k, who, m.snapshot, m.term);
  }

  lemma MsgLogsFrame(h: History, k: History, who: int, m: Msg)
    requires LogsGrow(h, k, who) && MsgLogs(h, m)
    ensures MsgLogs(k, m)
  {
    match m
    case VoteReq(_, _) =>
    case VoteResp(_, _, _, _) =>
    case AppendReq(_, args) => AppendOKGrows(h, k, who, args);
    case AppendResp(_, from, reply) =>
      AckedGrows(h, k, who, from, reply.term, reply.nextIndex - 1);
      if reply.term in h.logs { assert Extends(h.logs[reply.term], k.logs[reply.term], reply.term); }
    case InstallReq(_, args) => InstallOKGrows(h, k, who, args);
    case InstallResp(_, from, offered, _, _) =>
      InstallOKGrows(h, k, who, offered);
      AckedGrows(h, k, who, from, offered.term, offered.snapshot.index);
  }

  lemma CloseNodes(s: System, n: Node, h: History)
    requires LogsInv(s) && n.id in s.nodes
    requires LogsGrow(s.h, h, n.id) && NodeLogs(h, n)
    ensures forall i :: i in s.nodes ==> NodeLogs(h, s.nodes[n.id := n][i])
  {
    forall i | i in s.nodes ensures NodeLogs(h, s.nodes[n.id := n][i]) {
      if i != n.id {
        assert NodeVotes(s.h, s.nodes[i]);
        NodeLogsFrame(s.h, h, n.id, s.nodes[i]);
      }
    }
  }

  lemma CloseMsgs(msgs: set<Msg>, h: History, k: History, who: int)
    requires LogsGrow(h, k, who) && forall m :: m in msgs ==> MsgLogs(h, m)
    ensures forall m :: m in msgs ==> MsgLogs(k, m)
  {
    forall m | m in msgs ensures MsgLogs(k, m) { MsgLogsFrame(h, k, who, m); }
  }

  /** A step of one node keeps the invariant if the history, that node and its new messages do. */
  lemma CloseLogs(s: System, n: Node, sent: set<Msg>, h: History)
    requires LogsInv(s) && n.id in s.nodes
    requires LogsGrow(s.h, h, n.id) && HistoryOK(h) && NodeLogs(h, n)
    requires VotesInv(Update(s, n, sent, h))
    requires forall m :: m in sent ==> MsgLogs(h, m)
    ensures LogsInv(Update(s, n, sent, h))
  {
    CloseNodes(s, n, h);
    CloseMsgs(s.msgs, s.h, h, n.id);
  }
}
