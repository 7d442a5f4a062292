/** What holds of the logs in every run, whatever crashes and wherever messages stop short: every
    entry is as the leader of its term wrote it, a leader's log only grows, and what a node has
    persisted is the beginning of its log.

    None of this says anything of commit indices; `RaftSafety` and `RaftTheorems` do.
*/
module RaftShape {
  import opened RaftLogSpec
  import opened RaftProtocol
  import opened RaftHistory
  import opened RaftSystem
  import opened RaftElection
  import opened RaftFrame
  import opened RaftAppend

  // ----- the invariant, node by node and message by message

  /** What is persisted is the log but for entries of the node's own leadership. */
  predicate PersistedPart(n: Node) {
    && n.hard.base == n.log.base < |n.hard.full| <= |n.log.full|
    && n.hard.commit < |n.hard.full| && n.hard.commit <= n.log.committed
    && n.log.full[..|n.hard.full|] == n.hard.full
    && (forall i {:trigger n.log.full[i]} :: |n.hard.full| <= i < |n.log.full| ==> n.log.full[i].term == n.currentTerm)
    && (n.role != Leader ==> n.hard.full == n.log.full)
  }

  ghost predicate SnapShape(h: History, snap: Snapshot, term: int) {
    && |snap.prefix| == snap.index + 1 && snap.prefix[snap.index].term == snap.term
    && LogOK(h, snap.prefix) && TermsUpTo(snap.prefix, term)
  }

  ghost predicate LogShape(h: History, log: Log, term: int) {
    log.Valid() && LogOK(h, log.full) && TermsUpTo(log.full, term)
  }

  /** What concerns neither acknowledgements nor votes. */
  ghost predicate Written(h: History, n: Node) {
    && LogShape(h, n.log, n.currentTerm)
    && PersistedPart(n)
    && (n.role == Leader ==> n.currentTerm in h.logs && h.logs[n.currentTerm] == n.log.full)
    && (n.snapshot.Some? ==> SnapShape(h, n.snapshot.value, n.currentTerm))
  }

  ghost predicate AckTerms(h: History, id: int, term: int) {
    && (forall a :: a in h.acks && a.peer == id ==> a.term <= term)
    && (forall a :: a in h.misled && a.peer == id ==> a.term <= term)
  }

  ghost predicate NodeShape(h: History, n: Node) {
    Written(h, n) && AckTerms(h, n.id, n.currentTerm)
  }

  ghost predicate MsgShape(h: History, m: Msg) {
    match m
    case AppendReq(_, args) => args.prevLogTerm >= 0 ==> Carries(h, args)
    case InstallReq(_, args) => SnapShape(h, args.snapshot, args.term)
    case InstallResp(_, from, offered, _, branch) =>
      && SnapShape(h, offered.snapshot, offered.term)
      && (!branch.Stale? ==>
            Acked(h, from, offered.term, offered.snapshot.index) ||
                Misled(h, from, offered.term, offered.snapshot.index))
    case _ => true
  }

  ghost predicate ShapeInv(s: System) {
    && VotesInv(s)
    && LogsOK(s.h)
    && (forall i :: i in s.nodes ==> NodeShape(s.h, s.nodes[i]))
    && (forall m :: m in s.msgs ==> MsgShape(s.h, m))
  }

  // ----- one node's step

  ghost predicate ShapeGrow(h: History, k: History, who: int) {
    && VotesGrow(h, k, who) && Later(h, k)
    && (forall t {:trigger h.logs[t]} :: t in h.logs ==>
          k.logs[t] == h.logs[t] || (t in h.wins && h.wins[t].leader == who))
    && h.misled <= k.misled
    && (forall a :: a in k.acks ==> a in h.acks || a.peer == who)
    && (forall a :: a in k.misled ==> a in h.misled || a.peer == who)
  }

  lemma SnapShapeStays(h: History, k: History, snap: Snapshot, term: int)
    requires Later(h, k) && SnapShape(h, snap, term)
    ensures SnapShape(k, snap, term)
  {
    LogOKStays(h, k, snap.prefix);
  }

  lemma NodeShapeFrame(h: History, k: History, who: int, n: Node)
    requires ShapeGrow(h, k, who) && n.id != who && NodeShape(h, n) && NodeVotes(h, n)
    ensures NodeShape(k, n)
  {
    LogOKStays(h, k, n.log.full);
    if n.snapshot.Some? { SnapShapeStays(h, k, n.snapshot.value, n.currentTerm); }
  }

  lemma CarriesStays(h: History, k: History, m: AppendArgs)
    requires Later(h, k) && Carries(h, m)
    ensures Carries(k, m)
  {
    assert Agree(h.logs[m.term], k.logs[m.term], |h.logs[m.term]|);
  }

  lemma MsgShapeFrame(h: History, k: History, who: int, m: Msg)
    requires ShapeGrow(h, k, who) && MsgShape(h, m)
    ensures MsgShape(k, m)
  {
    match m
    case AppendReq(_, args) => if args.prevLogTerm >= 0 { CarriesStays(h, k, args); }
    case InstallReq(_, args) => SnapShapeStays(h, k, args.snapshot, args.term);
    case InstallResp(_, _, offered, _, _) => SnapShapeStays(h, k, offered.snapshot, offered.term);
    case _ =>
  }

  /** A step of one node keeps the shape if the history, that node and its new messages do. */
  lemma CloseShape(s: System, n: Node, sent: set<Msg>, h: History)
    requires ShapeInv(s) && n.id in s.nodes
    requires ShapeGrow(s.h, h, n.id) && LogsOK(h) && NodeShape(h, n)
    requires VotesInv(Update(s, n, sent, h))
    requires forall m :: m in sent ==> MsgShape(h, m)
    ensures ShapeInv(Update(s, n, sent, h))
  {
    var u := Update(s, n, sent, h);
    forall i | i in u.nodes ensures NodeShape(h, u.nodes[i]) {
      if i != n.id { NodeShapeFrame(s.h, h, n.id, s.nodes[i]); }
    }
    forall m | m in u.msgs ensures MsgShape(h, m) {
      if m in s.msgs { MsgShapeFrame(s.h, h, n.id, m); }
    }
  }

  lemma Parts(s: System, n: Node)
    requires ShapeInv(s) && n.id in s.nodes && n == s.nodes[n.id]
    ensures LogsOK(s.h) && VotesOK(s.h) && NodeVotes(s.h, n) && NodeShape(s.h, n)
  {
  }

  lemma MsgParts(s: System, m: Msg)
    requires ShapeInv(s) && m in s.msgs
    ensures MsgVotes(s.h, m) && MsgShape(s.h, m)
  {
  }

  // ----- steps that write no log of the history

  /** The history has gained votes or acknowledgements of node `who`, up to its term. */
  ghost predicate SameWriting(h: History, k: History, who: int, term: int) {
    && k.cluster == h.cluster && k.logs == h.logs && k.wins == h.wins
    && h.ballots <= k.ballots && (forall b :: b in k.ballots ==> b in h.ballots || b.voter == who)
    && h.acks <= k.acks && (forall a :: a in k.acks ==> a in h.acks || (a.peer == who && a.term <= term))
    && h.misled <= k.misled && (forall a :: a in k.misled ==> a in h.misled || (a.peer == who && a.term <= term))
  }

  lemma SameWritingGrows(h: History, k: History, who: int, term: int)
    requires LogsOK(h) && SameWriting(h, k, who, term)
    ensures ShapeGrow(h, k, who) && LogsOK(k)
  {
    forall t | t in k.logs ensures LogOK(k, k.logs[t]) { LogOKStays(h, k, h.logs[t]); }
  }

  lemma WrittenStays(h: History, k: History, n: Node)
    requires Later(h, k) && k.logs == h.logs && Written(h, n)
    ensures Written(k, n)
  {
    LogOKStays(h, k, n.log.full);
    if n.snapshot.Some? { SnapShapeStays(h, k, n.snapshot.value, n.currentTerm); }
  }

  /** What such a step makes of a node. */
  ghost predicate Quiet(h: History, n: Node, n1: Node, k: History) {
    && n1.id == n.id && n.currentTerm <= n1.currentTerm
    && Written(h, n1) && SameWriting(h, k, n.id, n1.currentTerm)
  }

  /** It keeps the shape if the node and its messages do. */
  lemma QuietShape(s: System, n: Node, n1: Node, sent: set<Msg>, k: History)
    requires ShapeInv(s) && n.id in s.nodes && n == s.nodes[n.id] && Quiet(s.h, n, n1, k)
    requires VotesInv(Update(s, n1, sent, k))
    requires forall m :: m in sent ==> MsgShape(k, m)
    ensures ShapeInv(Update(s, n1, sent, k))
  {
    Parts(s, n);
    SameWritingGrows(s.h, k, n.id, n1.currentTerm);
    WrittenStays(s.h, k, n1);
    CloseShape(s, n1, sent, k);
  }

  /** The node has just written all it has. */
  predicate AllWritten(n: Node) {
    n.hard.full == n.log.full && n.hard.base == n.log.base && n.hard.commit == n.log.committed
  }

  lemma SnapShapeLater(h: History, snap: Snapshot, term: int, later: int)
    requires SnapShape(h, snap, term) && term <= later
    ensures SnapShape(h, snap, later)
  {
  }

  /** A node in the same or a later term that keeps its log, and does not lead if the term is new. */
  lemma SameLogWritten(h: History, n: Node, n1: Node)
    requires Written(h, n) && n1.log == n.log && n1.snapshot == n.snapshot && n.currentTerm <= n1.currentTerm
    requires AllWritten(n1) || (n1.hard == n.hard && n1.currentTerm == n.currentTerm && n1.role == n.role)
    requires n1.role != Leader || (n.role == Leader && n1.currentTerm == n.currentTerm)
    ensures Written(h, n1)
  {
    if n.snapshot.Some? { SnapShapeLater(h, n.snapshot.value, n.currentTerm, n1.currentTerm); }
  }

  /** A node that does not lead and has written a log of the right shape. */
  lemma NewLogWritten(h: History, n: Node)
    requires LogShape(h, n.log, n.currentTerm) && AllWritten(n) && n.role != Leader
    requires n.snapshot.Some? ==> SnapShape(h, n.snapshot.value, n.currentTerm)
    ensures Written(h, n)
  {
  }

  /** The commit index of a log moves up within it, and the applied index anywhere. */
  lemma IndexMovedWritten(h: History, n: Node, log: Log)
    requires Written(h, n) && log.full == n.log.full && log.base == n.log.base
    requires n.log.committed <= log.committed < |log.full|
    ensures Written(h, n.(log := log))
  {
  }

  // ----- elections

  lemma TimeoutQuiet(h: History, n: Node)
    requires Written(h, n) && n.role != Leader
    ensures Quiet(h, n, ElectionTimeout(n).0, WithCampaign(h, n.currentTerm + 1, n.id, n.log.full))
  {
    SameLogWritten(h, n, ElectionTimeout(n).0);
  }

  lemma TimeoutShape(s: System, n: Node)
    requires ShapeInv(s) && n.id in s.nodes && n == s.nodes[n.id]
    ensures ShapeInv(OnTimeout(s, n))
  {
    if n.role != Leader {
      Parts(s, n);
      TimeoutKeepsVotes(s, n);
      var (n1, request) := ElectionTimeout(n);
      TimeoutQuiet(s.h, n);
      QuietShape(s, n, n1, set p | p in n.peers :: VoteReq(p, request),
                 WithCampaign(s.h, n.currentTerm + 1, n.id, n.log.full));
    }
  }

  lemma VoteReqQuiet(h: History, n: Node, request: VoteArgs)
    requires Written(h, n)
    ensures var (n1, reply) := HandleRequestVote(n, request); Quiet(h, n, n1, AfterVote(h, n.id, request, reply))
  {
    SameLogWritten(h, n, HandleRequestVote(n, request).0);
  }

  lemma VoteReqShape(s: System, n: Node, m: Msg)
    requires ShapeInv(s) && n.id in s.nodes && n == s.nodes[n.id] && m in s.msgs && m.VoteReq? && m.to == n.id
    ensures ShapeInv(OnVoteReq(s, n, m.vote))
  {
    Parts(s, n);
    VoteReqKeepsVotes(s, n, m);
    VoteReqQuiet(s.h, n, m.vote);
    var (n1, reply) := HandleRequestVote(n, m.vote);
    QuietShape(s, n, n1, {VoteResp(m.vote.candidateId, n.id, m.vote, reply)}, AfterVote(s.h, n.id, m.vote, reply));
  }

  lemma WinShape(h: History, n: Node, granted: set<int>)
    requires LogsOK(h) && NodeVotes(h, n) && NodeShape(h, n) && n.currentTerm !in h.wins && n.currentTerm > 0
    ensures var k := WithWin(h, n.currentTerm, Win(n.id, granted), n.log.full);
            ShapeGrow(h, k, n.id) && LogsOK(k) && NodeShape(k, BecomeLeader(n.(granted := granted)))
  {
    var k := WithWin(h, n.currentTerm, Win(n.id, granted), n.log.full);
    assert n.currentTerm !in h.logs;
    assert Later(h, k);
    LogOKStays(h, k, n.log.full);
    forall t | t in k.logs ensures LogOK(k, k.logs[t]) { LogOKStays(h, k, k.logs[t]); }
    if n.snapshot.Some? { SnapShapeStays(h, k, n.snapshot.value, n.currentTerm); }
  }

  lemma VoteCountedWritten(h: History, n: Node, from: int, asked: VoteArgs, reply: VoteReply)
    requires Written(h, n) && (n.role == Candidate ==> HandleVoteReply(n, from, asked, reply).role != Leader)
    ensures Quiet(h, n, HandleVoteReply(n, from, asked, reply), h)
  {
    SameLogWritten(h, n, HandleVoteReply(n, from, asked, reply));
  }

  lemma VoteRespWins(s: System, n: Node, m: Msg)
    requires ShapeInv(s) && n.id in s.nodes && n == s.nodes[n.id] && m in s.msgs && m.VoteResp? && m.to == n.id
    requires n.role == Candidate && HandleVoteReply(n, m.from, m.asked, m.voteReply).role == Leader
    requires VotesInv(OnVoteResp(s, n, m.from, m.asked, m.voteReply))
    ensures ShapeInv(OnVoteResp(s, n, m.from, m.asked, m.voteReply))
  {
    Parts(s, n);
    MsgParts(s, m);
    var n1 := HandleVoteReply(n, m.from, m.asked, m.voteReply);
    WonElection(s.h, n, m.from, m.asked, m.voteReply);
    WinShape(s.h, n, n1.granted);
    CloseShape(s, n1, {}, WithWin(s.h, n.currentTerm, Win(n.id, n1.granted), n.log.full));
  }

  lemma VoteRespShape(s: System, n: Node, m: Msg)
    requires ShapeInv(s) && n.id in s.nodes && n == s.nodes[n.id] && m in s.msgs && m.VoteResp? && m.to == n.id
    ensures ShapeInv(OnVoteResp(s, n, m.from, m.asked, m.voteReply))
  {
    VoteRespKeepsVotes(s, n, m);
    var n1 := HandleVoteReply(n, m.from, m.asked, m.voteReply);
    if n.role == Candidate && n1.role == Leader {
      VoteRespWins(s, n, m);
    } else {
      Parts(s, n);
      VoteCountedWritten(s.h, n, m.from, m.asked, m.voteReply);
      QuietShape(s, n, n1, {}, s.h);
    }
  }

  // ----- entries

  lemma FollowLeaderWritten(h: History, n: Node, m: AppendArgs)
    requires Written(h, n) && NodeVotes(h, n) && FromLeader(h, m.term, m.leaderId, n.id) && n.currentTerm <= m.term
    ensures var n1 := FollowLeader(n, m);
            Written(h, n1) && n1.role == Follower && n1.currentTerm == m.term && n1.log == n.log &&
                n1.snapshot == n.snapshot
  {
    SameLogWritten(h, n, FollowLeader(n, m));
  }

  lemma EntriesWritten(h: History, was: Log, m: AppendArgs, log: Log, last: int)
    requires LogsOK(h) && LogShape(h, was, m.term) && Carries(h, m)
    requires was.MaybeAppend(m.prevLogIndex, m.prevLogTerm, m.leaderCommit, m.entries) == Appended(log, last)
    ensures LogShape(h, DeferredCommit(log, m.leaderCommit), m.term)
  {
    TakenEntries(h, was, m, log, last);
    AppendKeepsLogOK(h, was, log, m.term);
    if log.full != was.full { var c :| CutAt(was, log, h.logs[m.term], c); }
  }

  lemma TakeEntriesWritten(h: History, n1: Node, m: AppendArgs)
    requires LogsOK(h) && Written(h, n1) && n1.role == Follower && n1.currentTerm == m.term &&
             MsgShape(h, AppendReq(n1.id, m))
    ensures var o := TakeEntries(n1, m); o.Done? ==>
            Written(h, o.node) && o.node.id == n1.id && o.node.currentTerm == m.term &&
                (o.reply.success ==> o.reply.term == m.term)
  {
    if m.prevLogIndex >= n1.log.base {
      match n1.log.MaybeAppend(m.prevLogIndex, m.prevLogTerm, m.leaderCommit, m.entries)
      case Appended(log, last) =>
        EntriesWritten(h, n1.log, m, log, last);
        NewLogWritten(h, Persist(n1.(log := DeferredCommit(log, m.leaderCommit))));
      case _ => SameLogWritten(h, n1, Persist(n1));
    } else {
      SameLogWritten(h, n1, Persist(n1));
    }
  }

  lemma AppendReqWritten(h: History, n: Node, m: AppendArgs)
    requires LogsOK(h) && Written(h, n) && NodeVotes(h, n) && FromLeader(h, m.term, m.leaderId, n.id)
    requires MsgShape(h, AppendReq(n.id, m))
    ensures var o := HandleAppendEntries(n, m); o.Done? ==> Quiet(h, n, o.node, AfterAppend(h, n.id, o.reply))
  {
    if m.term < n.currentTerm {
      SameLogWritten(h, n, Persist(n));
    } else {
      FollowLeaderWritten(h, n, m);
      TakeEntriesWritten(h, FollowLeader(n, m), m);
    }
  }

  lemma AppendReqShape(s: System, n: Node, m: Msg)
    requires ShapeInv(s) && n.id in s.nodes && n == s.nodes[n.id] && m in s.msgs && m.AppendReq? && m.to == n.id
    ensures ShapeInv(OnAppendReq(s, n, m.append))
  {
    Parts(s, n);
    MsgParts(s, m);
    AppendReqKeepsVotes(s, n, m);
    AppendReqWritten(s.h, n, m.append);
    match HandleAppendEntries(n, m.append)
    case Halt =>
    case Done(n1, reply) =>
      QuietShape(s, n, n1, {AppendResp(m.append.leaderId, n.id, reply)}, AfterAppend(s.h, n.id, reply));
  }

  lemma AppendReplyWritten(h: History, n: Node, peer: int, reply: AppendReply)
    requires Written(h, n) && peer in n.nextIndex && peer in n.matchIndex
    ensures var n1 := HandleAppendReply(n, peer, reply); Quiet(h, n, n1, AfterCommit(h, n, n1))
  {
    var n1 := HandleAppendReply(n, peer, reply);
    if n1.log == n.log {
      SameLogWritten(h, n, n1);
    } else {
      IndexMovedWritten(h, n, n1.log);
      SameLogWritten(h, n.(log := n1.log), n1);
    }
  }

  lemma AppendRespShape(s: System, n: Node, m: Msg)
    requires ShapeInv(s) && n.id in s.nodes && n == s.nodes[n.id] && m in s.msgs && m.AppendResp?
    ensures ShapeInv(OnDeliver(s, n, m))
  {
    Parts(s, n);
    ReplyKeepsVotes(s, n, m);
    if m.from in n.peers {
      AppendReplyWritten(s.h, n, m.from, m.appendReply);
      var n1 := HandleAppendReply(n, m.from, m.appendReply);
      assert OnDeliver(s, n, m) == Update(s, n1, {}, AfterCommit(s.h, n, n1));
      QuietShape(s, n, n1, {}, AfterCommit(s.h, n, n1));
    }
  }

  lemma SentShape(h: History, n: Node, peer: int, cap: nat)
    requires NodeShape(h, n) && peer in n.nextIndex
    ensures Replicate(n, peer, cap).SendAppend? ==> MsgShape(h, AppendReq(peer, Replicate(n, peer, cap).append))
    ensures Replicate(n, peer, cap).SendInstall? ==> MsgShape(h, InstallReq(peer, Replicate(n, peer, cap).install))
  {
    if Replicate(n, peer, cap).SendAppend? {
      SentIs(n, peer, cap);
      if n.nextIndex[peer] <= |n.log.full| { SuffixIsStretch(n.log, n.nextIndex[peer], cap); }
    }
  }

  lemma ReplicateShape(s: System, n: Node, peer: int)
    requires ShapeInv(s) && n.id in s.nodes && n == s.nodes[n.id] && peer in n.nextIndex
    ensures ShapeInv(OnReplicate(s, n, peer))
  {
    Parts(s, n);
    SentShape(s.h, n, peer, s.cap);
    ReplicateKeepsVotes(s, n, peer);
    OnReplicateIs(s, n, peer);
    var u := OnReplicate(s, n, peer);
    forall m | m in u.msgs ensures MsgShape(u.h, m) {
      if m in s.msgs { MsgParts(s, m); }
    }
  }

  lemma EntryShape(h: History, n: Node, e: Entry)
    requires LogsOK(h) && VotesOK(h) && NodeVotes(h, n) && NodeShape(h, n) && n.role == Leader &&
             e.term == n.currentTerm
    ensures var k := WithEntry(h, n.currentTerm, e);
            ShapeGrow(h, k, n.id) && LogsOK(k) && NodeShape(k, n.(log := n.log.(full := n.log.full + [e])))
  {
    var k := WithEntry(h, n.currentTerm, e);
    assert WinOK(h, n.currentTerm);
    LogOKStays(h, k, n.log.full);
    LongerOK(k, n.log.full, e);
    forall t | t in k.logs ensures LogOK(k, k.logs[t]) { if t != n.currentTerm { LogOKStays(h, k, h.logs[t]); } }
    if n.snapshot.Some? { SnapShapeStays(h, k, n.snapshot.value, n.currentTerm); }
  }

  lemma ProposeShape(s: System, n: Node, data: string)
    requires ShapeInv(s) && n.id in s.nodes && n == s.nodes[n.id]
    ensures ShapeInv(OnPropose(s, n, data))
  {
    Parts(s, n);
    ProposeKeepsVotes(s, n, data);
    if n.role == Leader {
      var e := Entry(n.currentTerm, data);
      EntryShape(s.h, n, e);
      CloseShape(s, n.(log := n.log.(full := n.log.full + [e])), {}, WithEntry(s.h, n.currentTerm, e));
    } else {
      QuietShape(s, n, n, {}, s.h);
    }
  }

  // ----- snapshots

  lemma ClearedShape(h: History, log: Log, term: int, snap: Snapshot)
    requires LogShape(h, log, term) && SnapShape(h, snap, term) && snap.index > log.LastIndex()
    ensures LogShape(h, log.Clear(snap), term)
  {
  }

  lemma InstallWritten(h: History, n: Node, m: InstallArgs)
    requires Written(h, n) && NodeVotes(h, n) && FromLeader(h, m.term, m.leaderId, n.id)
    requires SnapShape(h, m.snapshot, m.term)
    ensures var (n1, _, branch) := HandleInstallSnapshot(n, m);
            n.currentTerm <= n1.currentTerm && Written(h, n1) && n1.id == n.id &&
            (!branch.Stale? ==> n1.currentTerm == m.term)
  {
    if m.term >= n.currentTerm {
      var n1 := if m.term > n.currentTerm then BecomeFollower(n, m.term, m.leaderId) else n;
      SameLogWritten(h, n, n1);
      InstallBranchWritten(h, n1, m);
    }
  }

  lemma AnswerSameWriting(h: History, id: int, m: InstallArgs, branch: Branch, term: int)
    requires !branch.Stale? ==> term == m.term
    ensures SameWriting(h, AfterInstall(h, id, m, branch), id, term)
  {
  }

  /** The branches, in the term of the message. */
  lemma InstallBranchWritten(h: History, n1: Node, m: InstallArgs)
    requires Written(h, n1) && n1.currentTerm == m.term && n1.role != Leader && SnapShape(h, m.snapshot, m.term)
    ensures var n2 := InstallSnapshot(n1, m.snapshot).0;
            Written(h, n2) && n2.id == n1.id && n2.currentTerm == m.term
  {
    var snap := m.snapshot;
    if snap.index > n1.log.committed {
      if n1.log.MatchLog(snap.index, snap.term) {
        IndexMovedWritten(h, n1, n1.log.CommitTo(snap.index));
      } else if snap.index > n1.log.LastIndex() {
        ClearedShape(h, n1.log, m.term, snap);
        NewLogWritten(h, PersistWith(n1.(log := n1.log.Clear(snap)), snap));
      } else {
        NewLogWritten(h, PersistWith(n1.(log := n1.log.Compact(snap.index)), snap));
      }
    }
  }

  lemma InstallReqShape(s: System, n: Node, m: Msg)
    requires ShapeInv(s) && n.id in s.nodes && n == s.nodes[n.id] && m in s.msgs && m.InstallReq? && m.to == n.id
    ensures ShapeInv(OnInstallReq(s, n, m.install))
  {
    Parts(s, n);
    MsgParts(s, m);
    InstallReqKeepsVotes(s, n, m);
    InstallWritten(s.h, n, m.install);
    var (n1, reply, branch) := HandleInstallSnapshot(n, m.install);
    AnswerSameWriting(s.h, n.id, m.install, branch, n1.currentTerm);
    AnswerShape(s.h, n.id, m.install, reply, branch);
    QuietShape(s, n, n1, {InstallResp(m.install.leaderId, n.id, m.install, reply, branch)},
               AfterInstall(s.h, n.id, m.install, branch));
  }

  lemma AnswerShape(h: History, id: int, m: InstallArgs, reply: InstallReply, branch: Branch)
    requires SnapShape(h, m.snapshot, m.term)
    ensures MsgShape(AfterInstall(h, id, m, branch), InstallResp(m.leaderId, id, m, reply, branch))
  {
    var k := AfterInstall(h, id, m, branch);
    var a := Ack(m.term, id, m.snapshot.index);
    assert branch.Ignored? || branch.FastForwarded? || branch.Cleared? ==> a in k.acks;
    assert branch.Compacted? ==> a in k.misled;
    SnapShapeStays(h, k, m.snapshot, m.term);
  }

  lemma InstallReplyWritten(h: History, n: Node, m: Msg)
    requires Written(h, n) && m.InstallResp? && m.from in n.nextIndex && m.from in n.matchIndex
    ensures Quiet(h, n, HandleInstallReply(n, m.from, m.offered, m.installReply), h)
  {
    SameLogWritten(h, n, HandleInstallReply(n, m.from, m.offered, m.installReply));
  }

  lemma InstallRespShape(s: System, n: Node, m: Msg)
    requires ShapeInv(s) && n.id in s.nodes && n == s.nodes[n.id] && m in s.msgs && m.InstallResp?
    ensures ShapeInv(OnDeliver(s, n, m))
  {
    Parts(s, n);
    ReplyKeepsVotes(s, n, m);
    if m.from in n.peers {
      InstallReplyWritten(s.h, n, m);
      var n1 := HandleInstallReply(n, m.from, m.offered, m.installReply);
      assert OnDeliver(s, n, m) == Update(s, n1, {}, s.h);
      QuietShape(s, n, n1, {}, s.h);
    }
  }

  lemma PrefixShape(h: History, full: seq<Entry>, term: int, index: nat)
    requires LogOK(h, full) && TermsUpTo(full, term) && index < |full|
    ensures SnapShape(h, Snapshot(index, full[index].term, full[..index + 1]), term)
  {
    PrefixOK(h, full[..index + 1], full);
  }

  /** A saved snapshot and a log compacted to it. */
  lemma SavedWritten(h: History, n: Node, snap: Snapshot)
    requires Written(h, n) && SnapShape(h, snap, n.currentTerm)
    ensures Written(h, PersistWith(n.(log := n.log.Compact(snap.index)), snap))
  {
  }

  lemma TakeSnapshotWritten(h: History, n: Node, index: nat)
    requires Written(h, n)
    ensures Written(h, TakeSnapshot(n, index))
  {
    if n.log.CanSnapshot(index) {
      PrefixShape(h, n.log.full, n.currentTerm, index);
      SavedWritten(h, n, Snapshot(index, n.log.Term(index), n.log.full[..index + 1]));
    }
  }

  lemma SaveInstalledWritten(s: System, m: Msg)
    requires ShapeInv(s) && m in s.msgs && m.InstallResp? && !m.branch.Stale? && m.from in s.nodes
    ensures Written(s.h, PersistSnapshot(s.nodes[m.from], m.offered.snapshot))
  {
    var n := s.nodes[m.from];
    Parts(s, n);
    MsgParts(s, m);
    SnapShapeLater(s.h, m.offered.snapshot, m.offered.term, n.currentTerm);
    SavedWritten(s.h, n, m.offered.snapshot);
  }

  // ----- a crash

  lemma RestartWritten(h: History, n: Node)
    requires Written(h, n) && n.hard.term == n.currentTerm
    ensures Written(h, Restart(n))
  {
    PrefixOK(h, n.hard.full, n.log.full);
    assert forall i :: 0 <= i < |n.hard.full| ==> n.hard.full[i] == n.log.full[i];
  }

  // ----- all runs

  lemma DeliverShape(s: System, n: Node, m: Msg)
    requires ShapeInv(s) && n.id in s.nodes && n == s.nodes[n.id] && m in s.msgs && m.to == n.id
    ensures ShapeInv(OnDeliver(s, n, m))
  {
    match m
    case VoteReq(_, _) => VoteReqShape(s, n, m);
    case VoteResp(_, _, _, _) => VoteRespShape(s, n, m);
    case AppendReq(_, _) => AppendReqShape(s, n, m);
    case AppendResp(_, _, _) => AppendRespShape(s, n, m);
    case InstallReq(_, _) => InstallReqShape(s, n, m);
    case InstallResp(_, _, _, _, _) => InstallRespShape(s, n, m);
  }

  lemma LocalShape(s: System, a: Action, n: Node, n1: Node)
    requires ShapeInv(s) && n.id in s.nodes && n == s.nodes[n.id] && n1.id == n.id && n1.currentTerm == n.currentTerm
    requires Do(s, a) == Update(s, n1, {}, s.h) && Written(s.h, n1)
    ensures ShapeInv(Do(s, a))
  {
    StepKeepsVotes(s, a);
    QuietShape(s, n, n1, {}, s.h);
  }

  lemma LocalStepShape(s: System, a: Action)
    requires ShapeInv(s) && (a.SnapshotAt? || a.MarkApplied? || a.Crash?) && a.node in s.nodes
    ensures ShapeInv(Do(s, a))
  {
    var n := s.nodes[a.node];
    Parts(s, n);
    match a
    case SnapshotAt(_, index) =>
      TakeSnapshotWritten(s.h, n, index);
      LocalShape(s, a, n, TakeSnapshot(n, index));
    case MarkApplied(_, index) =>
      IndexMovedWritten(s.h, n, n.log.AppliedTo(index));
      LocalShape(s, a, n, n.(log := n.log.AppliedTo(index)));
    case Crash(_) =>
      RestartWritten(s.h, n);
      LocalShape(s, a, n, Restart(n));
  }

  lemma StepKeepsShape(s: System, a: Action)
    requires ShapeInv(s)
    ensures ShapeInv(Do(s, a))
  {
    match a
    case Timeout(i) => if i in s.nodes { TimeoutShape(s, s.nodes[i]); }
    case Deliver(m) => if m in s.msgs && m.to in s.nodes { DeliverShape(s, s.nodes[m.to], m); }
    case ClientPropose(i, data) => if i in s.nodes { ProposeShape(s, s.nodes[i], data); }
    case ReplicateTo(i, p) =>
      if i in s.nodes && p in s.nodes[i].nextIndex { ReplicateShape(s, s.nodes[i], p); }
    case SaveInstalled(m) =>
      if m in s.msgs && m.InstallResp? && (m.branch.Cleared? || m.branch.Compacted?) && m.from in s.nodes {
        SaveInstalledWritten(s, m);
        LocalShape(s, a, s.nodes[m.from], PersistSnapshot(s.nodes[m.from], m.offered.snapshot));
      }
    case SnapshotAt(i, _) => if i in s.nodes { LocalStepShape(s, a); }
    case MarkApplied(i, _) => if i in s.nodes { LocalStepShape(s, a); }
    case Crash(i) => if i in s.nodes { LocalStepShape(s, a); }
  }

  lemma InitShape(cluster: set<int>, cap: nat)
    requires NONE !in cluster
    ensures ShapeInv(Init(cluster, cap))
  {
    VotesInRuns(cluster, cap, []);
    var s := Init(cluster, cap);
    assert Anchored(s.h, [DUMMY], 0);
    forall i | i in s.nodes ensures NodeShape(s.h, s.nodes[i]) {
      assert s.nodes[i] == Start(i, cluster - {i});
    }
  }

  lemma {:induction false} ShapeInRuns(cluster: set<int>, cap: nat, actions: seq<Action>)
    requires NONE !in cluster
    ensures ShapeInv(Run(cluster, cap, actions))
  {
    if actions == [] {
      InitShape(cluster, cap);
    } else {
      ShapeInRuns(cluster, cap, actions[..|actions| - 1]);
      StepKeepsShape(Run(cluster, cap, actions[..|actions| - 1]), actions[|actions| - 1]);
    }
  }
}
