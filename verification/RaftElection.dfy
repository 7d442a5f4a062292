/** Election safety, in every run: whatever is lost, repeated or delayed, and wherever nodes
    crash and come back with the term and vote they had persisted.

    A vote can change within a term, because a losing candidate that hears from the winner
    clears its vote.  `VotesOK` says when: only on a node outside the winner's quorum.
*/
module RaftElection {
  import opened RaftProtocol
  import opened RaftHistory
  import opened RaftSystem

  /** Every vote a node gave binds it for the rest of that term, unless the term was won without it. */
  ghost predicate Bound(h: History, id: int, term: int, votedFor: int) {
    forall b :: b in h.ballots && b.voter == id ==>
      b.term <= term && (b.term == term ==> votedFor == b.cand || Excluded(h, b.term, id))
  }

  ghost predicate Standing(h: History, n: Node) {
    && n.votedFor == n.id
    && Ballot(n.currentTerm, n.id, n.id) in h.ballots
    && n.granted <= h.cluster
    && (forall p :: p in n.granted ==> Ballot(n.currentTerm, p, n.id) in h.ballots)
    && !(n.currentTerm in h.wins && h.wins[n.currentTerm].leader == n.id)
  }

  ghost predicate Leading(h: History, n: Node) {
    n.currentTerm in h.wins && h.wins[n.currentTerm].leader == n.id
  }

  ghost predicate NodeVotes(h: History, n: Node) {
    && n.id in h.cluster && n.peers == h.cluster - {n.id}
    && n.nextIndex.Keys == n.peers && n.matchIndex.Keys == n.peers
    && n.currentTerm >= 0
    && n.hard.term == n.currentTerm && n.hard.vote == n.votedFor
    && Bound(h, n.id, n.currentTerm, n.votedFor)
    && (n.role == Candidate ==> Standing(h, n))
    && (n.role == Leader ==> Leading(h, n))
  }

  ghost predicate FromLeader(h: History, term: int, leader: int, to: int) {
    term in h.wins && h.wins[term].leader == leader && to != leader
  }

  ghost predicate MsgVotes(h: History, m: Msg) {
    match m
    case VoteReq(to, args) => args.term > 0 && args.candidateId in h.cluster && to != args.candidateId
    case VoteResp(to, from, asked, reply) =>
      reply.voteGranted ==> asked.candidateId == to && Ballot(asked.term, from, to) in h.ballots
    case AppendReq(to, args) => FromLeader(h, args.term, args.leaderId, to)
    case InstallReq(to, args) => FromLeader(h, args.term, args.leaderId, to)
    case _ => true
  }

  ghost predicate VotesInv(s: System) {
    && NONE !in s.h.cluster
    && s.nodes.Keys == s.h.cluster
    && VotesOK(s.h)
    && (forall i :: i in s.nodes ==> s.nodes[i].id == i && NodeVotes(s.h, s.nodes[i]))
    && (forall m :: m in s.msgs ==> MsgVotes(s.h, m))
  }

  // ----- what one node's step may add to the history

  ghost predicate VotesGrow(h: History, k: History, who: int) {
    && k.cluster == h.cluster
    && (forall t :: t in h.wins ==> t in k.wins && k.wins[t] == h.wins[t])
    && (forall t :: t in k.wins ==> t in h.wins || k.wins[t].leader == who)
    && h.ballots <= k.ballots
    && (forall b :: b in k.ballots ==> b in h.ballots || b.voter == who)
  }

  lemma NodeVotesFrame(h: History, k: History, who: int, n: Node)
    requires VotesGrow(h, k, who) && NodeVotes(h, n) && n.id != who
    ensures NodeVotes(k, n)
  {
  }

  lemma MsgVotesFrame(h: History, k: History, who: int, m: Msg)
    requires VotesGrow(h, k, who) && MsgVotes(h, m)
    ensures MsgVotes(k, m)
  {
  }

  /** A step of one node keeps the invariant if the history, that node and its new messages do. */
  lemma CloseVotes(s: System, n: Node, sent: set<Msg>, h: History)
    requires VotesInv(s) && n.id in s.nodes
    requires VotesGrow(s.h, h, n.id) && VotesOK(h) && NodeVotes(h, n)
    requires forall m :: m in sent ==> MsgVotes(h, m)
    ensures VotesInv(Update(s, n, sent, h))
  {
    var u := Update(s, n, sent, h);
    forall i | i in u.nodes ensures u.nodes[i].id == i && NodeVotes(h, u.nodes[i]) {
      if i != n.id { NodeVotesFrame(s.h, h, n.id, s.nodes[i]); }
    }
    forall m | m in u.msgs ensures MsgVotes(h, m) {
      if m in s.msgs { MsgVotesFrame(s.h, h, n.id, m); }
    }
  }

  // ----- steps that leave the history's votes alone

  /** `becomeFollower` for a higher term. */
  lemma StepDownKeepsVotes(h: History, n: Node, term: int, leaderId: int)
    requires NodeVotes(h, n) && term > n.currentTerm
    ensures NodeVotes(h, BecomeFollower(n, term, leaderId))
  {
  }

  /** `becomeFollower` within the term, when the term's leader is someone else. */
  lemma LosingCandidateKeepsVotes(h: History, n: Node, leaderId: int)
    requires VotesOK(h) && NodeVotes(h, n) && n.role == Candidate && n.currentTerm in h.wins
    ensures NodeVotes(h, BecomeFollower(n, n.currentTerm, leaderId))
  {
    var t := n.currentTerm;
    assert WinOK(h, t);
    assert Excluded(h, t, n.id) by {
      assert n.id in h.wins[t].voters ==> Ballot(t, n.id, h.wins[t].leader) in h.ballots;
    }
  }

  lemma FollowLeaderKeepsVotes(h: History, n: Node, request: AppendArgs)
    requires VotesOK(h) && NodeVotes(h, n) && n.currentTerm <= request.term && request.term in h.wins
    ensures NodeVotes(h, FollowLeader(n, request))
    ensures FollowLeader(n, request).currentTerm == request.term
  {
    if request.term > n.currentTerm {
      StepDownKeepsVotes(h, n, request.term, request.leaderId);
    } else if n.role == Candidate {
      LosingCandidateKeepsVotes(h, n, request.leaderId);
    }
  }

  lemma TakeNodeVotes(h: History, n1: Node, request: AppendArgs)
    requires NodeVotes(h, n1)
    ensures var o := TakeEntries(n1, request); o.Done? ==> NodeVotes(h, o.node) && o.node.id == n1.id
  {
  }

  lemma AppendNodeVotes(h: History, n: Node, request: AppendArgs)
    requires VotesOK(h) && NodeVotes(h, n) && request.term in h.wins
    ensures var o := HandleAppendEntries(n, request); o.Done? ==> NodeVotes(h, o.node) && o.node.id == n.id
  {
    if request.term >= n.currentTerm {
      FollowLeaderKeepsVotes(h, n, request);
      TakeNodeVotes(h, FollowLeader(n, request), request);
    }
  }

  lemma AppendAnswered(s: System, n1: Node, leaderId: int, reply: AppendReply)
    requires VotesInv(s) && n1.id in s.nodes && NodeVotes(s.h, n1)
    ensures VotesInv(Update(s, n1, {AppendResp(leaderId, n1.id, reply)}, AfterAppend(s.h, n1.id, reply)))
  {
    AcksDoNotMatter(s.h, AfterAppend(s.h, n1.id, reply), n1);
    CloseVotes(s, n1, {AppendResp(leaderId, n1.id, reply)}, AfterAppend(s.h, n1.id, reply));
  }

  lemma AppendReqKeepsVotes(s: System, n: Node, m: Msg)
    requires VotesInv(s) && n.id in s.nodes && n == s.nodes[n.id] && m in s.msgs && m.AppendReq? && m.to == n.id
    ensures VotesInv(OnAppendReq(s, n, m.append))
  {
    assert MsgVotes(s.h, m) && NodeVotes(s.h, n);
    AppendNodeVotes(s.h, n, m.append);
    match HandleAppendEntries(n, m.append)
    case Halt =>
    case Done(n1, reply) => AppendAnswered(s, n1, m.append.leaderId, reply);
  }

  /** The votes of a node and of the history do not depend on acknowledgements or logs. */
  lemma AcksDoNotMatter(h: History, k: History, n: Node)
    requires k.cluster == h.cluster && k.wins == h.wins && k.ballots == h.ballots
    ensures VotesOK(h) ==> VotesOK(k)
    ensures NodeVotes(h, n) ==> NodeVotes(k, n)
    ensures VotesGrow(h, k, n.id)
  {
    if VotesOK(h) {
      forall t | t in k.wins ensures WinOK(k, t) { assert WinOK(h, t); }
    }
  }

  lemma InstallNodeVotes(h: History, n: Node, request: InstallArgs)
    requires NodeVotes(h, n)
    ensures NodeVotes(h, HandleInstallSnapshot(n, request).0)
  {
    if request.term > n.currentTerm { StepDownKeepsVotes(h, n, request.term, request.leaderId); }
  }

  lemma InstallReqKeepsVotes(s: System, n: Node, m: Msg)
    requires VotesInv(s) && n.id in s.nodes && n == s.nodes[n.id] && m in s.msgs && m.InstallReq? && m.to == n.id
    ensures VotesInv(OnInstallReq(s, n, m.install))
  {
    var request := m.install;
    var (n1, reply, branch) := HandleInstallSnapshot(n, request);
    var h := OnInstallReq(s, n, request).h;
    InstallNodeVotes(s.h, n, request);
    AcksDoNotMatter(s.h, h, n1);
    CloseVotes(s, n1, {InstallResp(request.leaderId, n.id, request, reply, branch)}, h);
  }

  lemma AppendReplyKeepsVotes(h: History, n: Node, peer: int, reply: AppendReply)
    requires NodeVotes(h, n) && peer in n.peers
    ensures NodeVotes(h, HandleAppendReply(n, peer, reply))
  {
    if reply.term > n.currentTerm { StepDownKeepsVotes(h, n, reply.term, reply.leaderId); }
  }

  lemma InstallReplyKeepsVotes(h: History, n: Node, peer: int, request: InstallArgs, reply: InstallReply)
    requires NodeVotes(h, n) && peer in n.peers
    ensures NodeVotes(h, HandleInstallReply(n, peer, request, reply))
  {
    if reply.term > n.currentTerm { StepDownKeepsVotes(h, n, reply.term, reply.leaderId); }
  }

  lemma ReplyKeepsVotes(s: System, n: Node, m: Msg)
    requires VotesInv(s) && n.id in s.nodes && n == s.nodes[n.id]
    requires m.AppendResp? || m.InstallResp?
    ensures VotesInv(OnDeliver(s, n, m))
  {
    assert NodeVotes(s.h, n);
    if m.from in n.peers {
      var n1 := if m.AppendResp? then HandleAppendReply(n, m.from, m.appendReply)
                else HandleInstallReply(n, m.from, m.offered, m.installReply);
      if m.AppendResp? {
        AppendReplyKeepsVotes(s.h, n, m.from, m.appendReply);
      } else {
        InstallReplyKeepsVotes(s.h, n, m.from, m.offered, m.installReply);
      }
      var h := OnDeliver(s, n, m).h;
      AcksDoNotMatter(s.h, h, n1);
      CloseVotes(s, n1, {}, h);
      assert OnDeliver(s, n, m) == Update(s, n1, {}, h);
    }
  }

  lemma ProposeKeepsVotes(s: System, n: Node, data: string)
    requires VotesInv(s) && n.id in s.nodes && n == s.nodes[n.id]
    ensures VotesInv(OnPropose(s, n, data))
  {
    var u := OnPropose(s, n, data);
    AcksDoNotMatter(s.h, u.h, u.nodes[n.id]);
    CloseVotes(s, u.nodes[n.id], {}, u.h);
  }

  lemma ReplicateKeepsVotes(s: System, n: Node, peer: int)
    requires VotesInv(s) && n.id in s.nodes && n == s.nodes[n.id] && peer in n.nextIndex
    ensures VotesInv(OnReplicate(s, n, peer))
  {
    assert NodeVotes(s.h, n);
    assert peer != n.id;
    var sent := match Replicate(n, peer, s.cap)
                case Nothing => {}
                case SendAppend(request) => {AppendReq(peer, request)}
                case SendInstall(request) => {InstallReq(peer, request)};
    CloseVotes(s, n, sent, s.h);
    var u := Update(s, n, sent, s.h);
    assert u.nodes == s.nodes && OnReplicate(s, n, peer).msgs == u.msgs;
  }

  // ----- steps that add votes

  /** A new candidacy, in a term in which the node has not voted. */
  lemma StandingAnew(h: History, k: History, n: Node)
    requires VotesOK(h) && NodeVotes(h, n)
    requires k.cluster == h.cluster && k.wins == h.wins
    requires k.ballots == h.ballots + {Ballot(n.currentTerm + 1, n.id, n.id)}
    requires k.campaigns.Keys >= h.campaigns.Keys + {(n.currentTerm + 1, n.id)}
    ensures VotesOK(k) && VotesGrow(h, k, n.id) && NodeVotes(k, ElectionTimeout(n).0)
  {
    forall t | t in k.wins ensures WinOK(k, t) { assert WinOK(h, t); }
    assert n.currentTerm + 1 in h.wins ==> WinOK(h, n.currentTerm + 1);
  }

  lemma TimeoutKeepsVotes(s: System, n: Node)
    requires VotesInv(s) && n.id in s.nodes && n == s.nodes[n.id]
    ensures VotesInv(OnTimeout(s, n))
  {
    if n.role != Leader {
      var h := OnTimeout(s, n).h;
      var (n1, request) := ElectionTimeout(n);
      StandingAnew(s.h, h, n);
      CloseVotes(s, n1, set p | p in n.peers :: VoteReq(p, request), h);
    }
  }

  /** A vote granted at its own term is either the node's first, or the same again, or one
      that can no longer count. */
  lemma GrantKeepsVotes(h: History, n: Node, b: Ballot)
    requires VotesOK(h) && NodeVotes(h, n) && NONE !in h.cluster
    requires b.voter == n.id && b.term == n.currentTerm > 0 && b.cand in h.cluster && b.cand != n.id
    requires n.votedFor == NONE || n.votedFor == b.cand
    ensures VotesOK(WithBallot(h, b)) && VotesGrow(h, WithBallot(h, b), n.id)
    ensures NodeVotes(WithBallot(h, b), Persist(n.(votedFor := b.cand)))
  {
    var k := WithBallot(h, b);
    forall t | t in k.wins ensures WinOK(k, t) { assert WinOK(h, t); }
    forall c | c in h.ballots && c.term == b.term && c.voter == b.voter && c.cand != b.cand
      ensures Excluded(k, b.term, b.voter)
    {
      BallotCandidate(h, n, c);
    }
  }

  lemma BallotCandidate(h: History, n: Node, c: Ballot)
    requires NodeVotes(h, n) && c in h.ballots && c.voter == n.id && c.term == n.currentTerm
    ensures n.votedFor == c.cand || Excluded(h, c.term, n.id)
  {
  }

  lemma VoteReqKeepsVotes(s: System, n: Node, m: Msg)
    requires VotesInv(s) && n.id in s.nodes && n == s.nodes[n.id] && m in s.msgs && m.VoteReq? && m.to == n.id
    ensures VotesInv(OnVoteReq(s, n, m.vote))
  {
    var request := m.vote;
    assert MsgVotes(s.h, m) && NodeVotes(s.h, n);
    var (n1, reply) := HandleRequestVote(n, request);
    var follower := if request.term > n.currentTerm then BecomeFollower(n, request.term, NONE) else n;
    if request.term > n.currentTerm { StepDownKeepsVotes(s.h, n, request.term, NONE); }
    if reply.voteGranted {
      var b := Ballot(request.term, n.id, request.candidateId);
      GrantKeepsVotes(s.h, follower, b);
      CloseVotes(s, n1, {VoteResp(request.candidateId, n.id, request, reply)}, WithBallot(s.h, b));
    } else {
      CloseVotes(s, n1, {VoteResp(request.candidateId, n.id, request, reply)}, s.h);
    }
  }

  /** No election is won in a term that already has a leader. */
  lemma OneWinPerTerm(h: History, t: int, c: int, granted: set<int>)
    requires VotesOK(h) && Quorum(h, granted)
    requires forall p :: p in granted ==> Ballot(t, p, c) in h.ballots
    requires t in h.wins
    ensures h.wins[t].leader == c
  {
    assert WinOK(h, t);
    var p := TwoQuorumsMeet(h.cluster, granted, h.wins[t].voters);
    assert Ballot(t, p, c) in h.ballots && Ballot(t, p, h.wins[t].leader) in h.ballots;
  }

  lemma ClusterSize(h: History, n: Node)
    requires n.id in h.cluster && n.peers == h.cluster - {n.id}
    ensures |n.peers| + 1 == |h.cluster|
  {
    assert h.cluster == n.peers + {n.id};
  }

  /** Winning: the term had no leader yet, and the votes counted are a majority's. */
  lemma WonElection(h: History, n: Node, from: int, asked: VoteArgs, reply: VoteReply)
    requires VotesOK(h) && NodeVotes(h, n) && n.role == Candidate
    requires reply.voteGranted ==> asked.candidateId == n.id && Ballot(asked.term, from, n.id) in h.ballots
    requires HandleVoteReply(n, from, asked, reply).role == Leader
    ensures n.currentTerm !in h.wins && n.currentTerm > 0
    ensures var n1 := HandleVoteReply(n, from, asked, reply);
            n1 == BecomeLeader(n.(granted := n1.granted)) && Quorum(h, n1.granted) &&
            forall p :: p in n1.granted ==> Ballot(n.currentTerm, p, n.id) in h.ballots
  {
    var n1 := HandleVoteReply(n, from, asked, reply);
    ClusterSize(h, n);
    assert from in h.cluster;
    if n.currentTerm in h.wins {
      OneWinPerTerm(h, n.currentTerm, n.id, n1.granted);
    }
  }

  lemma WinKeepsVotes(h: History, n: Node, granted: set<int>)
    requires VotesOK(h) && NodeVotes(h, n) && n.role == Candidate && n.currentTerm !in h.wins && n.currentTerm > 0
    requires Quorum(h, granted) && forall p :: p in granted ==> Ballot(n.currentTerm, p, n.id) in h.ballots
    ensures var k := WithWin(h, n.currentTerm, Win(n.id, granted), n.log.full);
            VotesOK(k) && VotesGrow(h, k, n.id) && NodeVotes(k, BecomeLeader(n.(granted := granted)))
  {
    var k := WithWin(h, n.currentTerm, Win(n.id, granted), n.log.full);
    forall t | t in k.wins ensures WinOK(k, t) {
      if t in h.wins { assert WinOK(h, t); }
    }
  }

  lemma VoteRespKeepsVotes(s: System, n: Node, m: Msg)
    requires VotesInv(s) && n.id in s.nodes && n == s.nodes[n.id] && m in s.msgs && m.VoteResp? && m.to == n.id
    ensures VotesInv(OnVoteResp(s, n, m.from, m.asked, m.voteReply))
  {
    assert MsgVotes(s.h, m) && NodeVotes(s.h, n);
    var n1 := HandleVoteReply(n, m.from, m.asked, m.voteReply);
    if n.role == Candidate && n1.role == Leader {
      WonElection(s.h, n, m.from, m.asked, m.voteReply);
      WinKeepsVotes(s.h, n, n1.granted);
      CloseVotes(s, n1, {}, WithWin(s.h, n.currentTerm, Win(n.id, n1.granted), n.log.full));
    } else {
      VoteCountedKeepsVotes(s.h, n, m.from, m.asked, m.voteReply);
      CloseVotes(s, n1, {}, s.h);
    }
  }

  lemma VoteCountedKeepsVotes(h: History, n: Node, from: int, asked: VoteArgs, reply: VoteReply)
    requires VotesOK(h) && NodeVotes(h, n)
    requires reply.voteGranted ==> asked.candidateId == n.id && Ballot(asked.term, from, n.id) in h.ballots
    requires n.role == Candidate ==> HandleVoteReply(n, from, asked, reply).role != Leader
    ensures NodeVotes(h, HandleVoteReply(n, from, asked, reply))
  {
    if reply.term > n.currentTerm { StepDownKeepsVotes(h, n, reply.term, reply.leaderId); }
  }

  // ----- all runs

  /** Saving a snapshot, marking entries applied and starting again touch neither term nor vote,
      nor the roles of other nodes. */
  lemma QuietKeepsVotes(s: System, n: Node, n1: Node)
    requires VotesInv(s) && n.id in s.nodes && n == s.nodes[n.id]
    requires n1.id == n.id && n1.peers == n.peers && n1.nextIndex.Keys == n.peers && n1.matchIndex.Keys == n.peers
    requires n1.currentTerm == n.currentTerm && n1.votedFor == n.votedFor
    requires n1.hard.term == n.hard.term && n1.hard.vote == n.hard.vote
    requires n1.role == Follower || (n1.role == n.role && n1.granted == n.granted)
    ensures VotesInv(Update(s, n1, {}, s.h))
  {
    assert NodeVotes(s.h, n);
    CloseVotes(s, n1, {}, s.h);
  }

  lemma StepKeepsVotes(s: System, a: Action)
    requires VotesInv(s)
    ensures VotesInv(Do(s, a))
  {
    match a
    case Timeout(i) => if i in s.nodes { TimeoutKeepsVotes(s, s.nodes[i]); }
    case Deliver(m) =>
      if m in s.msgs && m.to in s.nodes {
        var n := s.nodes[m.to];
        match m
        case VoteReq(_, _) => VoteReqKeepsVotes(s, n, m);
        case VoteResp(_, _, _, _) => VoteRespKeepsVotes(s, n, m);
        case AppendReq(_, _) => AppendReqKeepsVotes(s, n, m);
        case InstallReq(_, _) => InstallReqKeepsVotes(s, n, m);
        case AppendResp(_, _, _) => ReplyKeepsVotes(s, n, m);
        case InstallResp(_, _, _, _, _) => ReplyKeepsVotes(s, n, m);
      }
    case ClientPropose(i, data) => if i in s.nodes { ProposeKeepsVotes(s, s.nodes[i], data); }
    case ReplicateTo(i, p) =>
      if i in s.nodes && p in s.nodes[i].nextIndex { ReplicateKeepsVotes(s, s.nodes[i], p); }
    case SnapshotAt(i, index) =>
      if i in s.nodes { QuietKeepsVotes(s, s.nodes[i], TakeSnapshot(s.nodes[i], index)); }
    case SaveInstalled(m) =>
      if m in s.msgs && m.InstallResp? && (m.branch.Cleared? || m.branch.Compacted?) && m.from in s.nodes {
        QuietKeepsVotes(s, s.nodes[m.from], PersistSnapshot(s.nodes[m.from], m.offered.snapshot));
      }
    case MarkApplied(i, index) =>
      if i in s.nodes { QuietKeepsVotes(s, s.nodes[i], s.nodes[i].(log := s.nodes[i].log.AppliedTo(index))); }
    case Crash(i) => if i in s.nodes { QuietKeepsVotes(s, s.nodes[i], Restart(s.nodes[i])); }
  }

  lemma {:induction false} VotesInRuns(cluster: set<int>, cap: nat, actions: seq<Action>)
    requires NONE !in cluster
    ensures VotesInv(Run(cluster, cap, actions))
  {
    if actions != [] {
      VotesInRuns(cluster, cap, actions[..|actions| - 1]);
      StepKeepsVotes(Run(cluster, cap, actions[..|actions| - 1]), actions[|actions| - 1]);
    }
  }

  /** Each term has at most one leader, in every reachable state of every cluster. */
  lemma ElectionSafety(cluster: set<int>, cap: nat, actions: seq<Action>, i: int, j: int)
    requires NONE !in cluster
    ensures var s := Run(cluster, cap, actions);
      (i in s.nodes && j in s.nodes && s.nodes[i].role == Leader && s.nodes[j].role == Leader &&
       s.nodes[i].currentTerm == s.nodes[j].currentTerm) ==> i == j
  {
    VotesInRuns(cluster, cap, actions);
    var s := Run(cluster, cap, actions);
    if i in s.nodes && j in s.nodes {
      assert NodeVotes(s.h, s.nodes[i]) && NodeVotes(s.h, s.nodes[j]);
    }
  }
}
