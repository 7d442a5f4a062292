/** Parts of runs of a three-node cluster, from which the counterexamples to an unconditional
    state machine safety (`RaftLostEntry`, `RaftCutMessage`) are put together.
*/
module RaftThreeNodes {
  import opened RaftLogSpec
  import opened RaftProtocol
  import opened RaftHistory
  import opened RaftSystem

  const CLUSTER: set<int> := {1, 2, 3}
  const BARE: Log := Log([DUMMY], 0, 0, 0)

  // ----- runs

  /** Some more actions. */
  function Onward(s: System, more: seq<Action>): System {
    if more == [] then s else Do(Onward(s, more[..|more| - 1]), more[|more| - 1])
  }

  lemma {:induction false} RunOnward(cluster: set<int>, cap: nat, actions: seq<Action>)
    ensures Run(cluster, cap, actions) == Onward(Init(cluster, cap), actions)
  {
    if actions != [] {
      RunOnward(cluster, cap, actions[..|actions| - 1]);
    }
  }

  lemma {:induction false} OnwardOn(s: System, acts: seq<Action>, more: seq<Action>)
    ensures Onward(s, acts + more) == Onward(Onward(s, acts), more)
  {
    if more == [] {
      assert acts + more == acts;
    } else {
      OnwardOn(s, acts, more[..|more| - 1]);
      assert (acts + more)[..|acts + more| - 1] == acts + more[..|more| - 1];
    }
  }

  predicate NoCrash(acts: seq<Action>) {
    forall a :: a in acts ==> !a.Crash?
  }

  /** Some actions without a crash lead from `s` to `u`. */
  ghost predicate Reach(s: System, u: System) {
    exists acts :: NoCrash(acts) && Onward(s, acts) == u
  }

  lemma ReachOn(s: System, t: System, u: System)
    requires Reach(s, t) && Reach(t, u)
    ensures Reach(s, u)
  {
    var acts :| NoCrash(acts) && Onward(s, acts) == t;
    var more :| NoCrash(more) && Onward(t, more) == u;
    OnwardOn(s, acts, more);
    assert NoCrash(acts + more);
  }

  lemma ReachOne(s: System, a: Action)
    requires !a.Crash?
    ensures Reach(s, Do(s, a))
  {
    assert [a][..0] == [];
    assert NoCrash([a]) && Onward(s, [a]) == Do(s, a);
  }

  // ----- nodes

  /** The node is that of the cluster, and its log was never compacted. */
  predicate Plain(n: Node, id: int) {
    && n.id == id && n.peers == CLUSTER - {id}
    && n.nextIndex.Keys == n.peers && n.matchIndex.Keys == n.peers
    && n.log.base == 0 && n.hard.base == 0 && n.log.Valid() && n.hard.commit < |n.hard.full|
  }

  predicate Three(s: System) {
    s.nodes.Keys == CLUSTER && forall i :: i in CLUSTER ==> Plain(s.nodes[i], i)
  }

  predicate Stands(n: Node, role: Role, term: int, log: Log) {
    n.role == role && n.currentTerm == term && n.log == log && term >= 0
  }

  predicate Persisted(n: Node) {
    n.hard.full == n.log.full && n.hard.commit == n.log.committed && n.hard.term == n.currentTerm
  }

  /** As after an election: the next index of every peer, and nothing known to match. */
  predicate NextIs(n: Node, next: int) {
    && (forall p :: p in n.nextIndex ==> n.nextIndex[p] == next)
    && (forall p :: p in n.matchIndex ==> n.matchIndex[p] == 0)
  }

  /** It takes what the leader of the term sends. */
  predicate Hears(n: Node, term: int) {
    n.currentTerm < term || (n.currentTerm == term && n.role == Follower)
  }

  lemma AtTheStart(cap: nat)
    ensures var s := Init(CLUSTER, cap);
      s.cap == cap && Three(s) && forall i :: i in CLUSTER ==> Stands(s.nodes[i], Follower, 0, BARE)
  {
  }

  /** What is reached from the start is the end of a run. */
  lemma IsRun(cap: nat, u: System) returns (actions: seq<Action>)
    requires Reach(Init(CLUSTER, cap), u)
    ensures NoCrash(actions) && Run(CLUSTER, cap, actions) == u
  {
    actions :| NoCrash(actions) && Onward(Init(CLUSTER, cap), actions) == u;
    RunOnward(CLUSTER, cap, actions);
  }

  lemma TwoOfThree(c: int, v: int)
    requires c in CLUSTER && v in CLUSTER && c != v
    ensures |{c} + {v}| == 2 && |CLUSTER - {c}| == 2
  {
    assert CLUSTER == {1, 2, 3} && |CLUSTER| == 3;
  }

  /** The two nodes of an election: the candidate asks, the other grants, and that is a majority. */
  lemma ElectionOfTwo(c: Node, v: Node, candidate: Node, request: VoteArgs, voter: Node, reply: VoteReply, leader: Node)
    requires Plain(c, c.id) && Plain(v, v.id) && c.id in CLUSTER && v.id in CLUSTER && c.id != v.id
    requires 0 <= v.currentTerm <= c.currentTerm && v.log.IsUpToDate(c.log.LastIndex(), c.log.LastTerm())
    requires (candidate, request) == ElectionTimeout(c) && (voter, reply) == HandleRequestVote(v, request)
    requires leader == HandleVoteReply(candidate, v.id, request, reply)
    ensures Plain(leader, c.id) && Stands(leader, Leader, c.currentTerm + 1, c.log) && Persisted(leader)
    ensures NextIs(leader, |c.log.full|)
    ensures Plain(voter, v.id) && Stands(voter, Follower, c.currentTerm + 1, v.log)
  {
    TwoOfThree(c.id, v.id);
    assert reply.voteGranted && voter.role == Follower;
    assert candidate.granted + {v.id} == {c.id} + {v.id};
  }

  /** The message of a leader that has one entry to send, or may send only one. */
  function OneEntry(l: Node, next: int): AppendArgs
    requires 1 <= next < |l.log.full|
  {
    AppendArgs(l.currentTerm, l.id, next - 1, l.log.full[next - 1].term, [l.log.full[next]], l.log.committed)
  }

  predicate SendsOne(l: Node, p: int, cap: nat) {
    && Plain(l, l.id) && p in l.peers && l.role == Leader
    && 1 <= l.nextIndex[p] < |l.log.full| && (cap == 1 || (cap == NO_LIMIT && l.nextIndex[p] + 1 == |l.log.full|))
  }

  lemma OneSent(l: Node, p: int, cap: nat)
    requires SendsOne(l, p, cap)
    ensures Replicate(l, p, cap) == SendAppend(OneEntry(l, l.nextIndex[p]))
  {
    var next := l.nextIndex[p];
    assert l.log.full[next..next + 1] == [l.log.full[next]];
  }

  lemma FollowsLeader(p: Node, request: AppendArgs)
    requires Hears(p, request.term)
    ensures var n := FollowLeader(p, request);
      && n.role == Follower && n.currentTerm == request.term
      && n == p.(role := n.role, currentTerm := n.currentTerm, votedFor := n.votedFor, leaderId := n.leaderId,
          hard := n.hard)
    ensures Plain(p, p.id) ==> Plain(FollowLeader(p, request), p.id)
  {
  }

  /** A log that ends just before the entry takes it. */
  lemma OneTaken(p: Node, request: AppendArgs, e: Entry)
    requires Plain(p, p.id) && Hears(p, request.term) && request.term >= 0 && p.log.committed == 0 && p.log.applied == 0
    requires request.prevLogIndex == p.log.LastIndex() && request.prevLogTerm == p.log.LastTerm() >= 0
    requires request.entries == [e] && request.leaderCommit == 0
    ensures var o := HandleAppendEntries(p, request);
      && o.Done? && Plain(o.node, p.id)
      && Stands(o.node, Follower, request.term, Log(p.log.full + [e], 0, 0, 0))
      && o.reply.success && o.reply.term == request.term && o.reply.nextIndex == |p.log.full| + 1
  {
    FollowsLeader(p, request);
    var log := p.log;
    assert log.FindConflict(|log.full|, [e]) == |log.full|;
    assert [e][0..] == [e] && log.full[..|log.full|] == log.full;
    assert log.MaybeAppend(request.prevLogIndex, request.prevLogTerm, 0, [e]) ==
           Appended(Log(log.full + [e], 0, 0, 0), |log.full|);
  }

  lemma NextTaken(l: Node, p: Node, request: AppendArgs)
    requires Plain(l, l.id) && Plain(p, p.id) && p.id in l.peers && 1 <= l.nextIndex[p.id] < |l.log.full|
    requires Hears(p, l.currentTerm) && l.currentTerm >= 0 && l.log.committed == 0
    requires request == OneEntry(l, l.nextIndex[p.id])
    requires var (full, next) := (l.log.full, l.nextIndex[p.id]);
      p.log == Log(full[..next], 0, 0, 0) && full[next - 1].term >= 0
    ensures var o := HandleAppendEntries(p, request); var (full, next) := (l.log.full, l.nextIndex[p.id]);
      && o.Done? && Plain(o.node, p.id)
      && Stands(o.node, Follower, l.currentTerm, Log(full[..next + 1], 0, 0, 0))
      && o.reply.success && o.reply.term == l.currentTerm && o.reply.nextIndex == next + 1
  {
    var (full, next) := (l.log.full, l.nextIndex[p.id]);
    assert p.log.LastIndex() == next - 1 && p.log.LastTerm() == full[next - 1].term;
    assert p.log.full + [full[next]] == full[..next + 1];
    OneTaken(p, request, full[next]);
  }

  /** The leader after a node has taken everything before `next`. */
  function Counted(l: Node, p: int, next: int): Node {
    l.(nextIndex := l.nextIndex[p := next], matchIndex := l.matchIndex[p := next - 1],
       log := l.log.MaybeCommit(next - 1, l.currentTerm))
  }

  /** Two of three are a majority. */
  lemma OneCounted(l: Node, p: int, reply: AppendReply)
    requires Plain(l, l.id) && l.id in CLUSTER && p in l.peers && l.role == Leader
    requires reply.success && reply.term == l.currentTerm && reply.nextIndex > l.nextIndex[p]
    ensures HandleAppendReply(l, p, reply) == Counted(l, p, reply.nextIndex) &&
            Plain(Counted(l, p, reply.nextIndex), l.id)
  {
    TwoOfThree(l.id, p);
    var next := reply.nextIndex;
    var l0 := l.(nextIndex := l.nextIndex[p := next], matchIndex := l.matchIndex[p := next - 1]);
    assert p in Holders(l0, next - 1);
    assert Majority(1 + |Holders(l0, next - 1)|, l0);
  }

  // ----- actions

  /** Only node `i` has changed. */
  ghost predicate Moved(s: System, u: System, i: int) {
    && Three(u) && u.cap == s.cap && s.msgs <= u.msgs && Reach(s, u)
    && forall q :: q in CLUSTER && q != i && q in s.nodes ==> u.nodes[q] == s.nodes[q]
  }

  /** Only nodes `i` and `j` have changed. */
  ghost predicate TwoMoved(s: System, u: System, i: int, j: int) {
    && Three(u) && u.cap == s.cap && s.msgs <= u.msgs && Reach(s, u)
    && forall q :: q in CLUSTER && q != i && q != j && q in s.nodes ==> u.nodes[q] == s.nodes[q]
  }

  lemma BothMoved(s: System, t: System, u: System, i: int, j: int)
    requires TwoMoved(s, t, i, j) && TwoMoved(t, u, i, j)
    ensures TwoMoved(s, u, i, j)
  {
    ReachOn(s, t, u);
  }

  lemma AsTwo(s: System, u: System, i: int, j: int)
    requires Moved(s, u, i)
    ensures TwoMoved(s, u, i, j) && TwoMoved(s, u, j, i)
  {
  }

  lemma UpdateMoves(s: System, u: System, n: Node, sent: set<Msg>, h: History)
    requires Three(s) && n.id in CLUSTER && Plain(n, n.id) && u == Update(s, n, sent, h) && Reach(s, u)
    ensures Moved(s, u, n.id) && u.nodes[n.id] == n && sent <= u.msgs
  {
  }

  lemma TimeoutMoves(s: System, c: int) returns (u: System)
    requires Three(s) && c in CLUSTER && s.nodes[c].role != Leader
    ensures Moved(s, u, c) && u.nodes[c] == ElectionTimeout(s.nodes[c]).0
    ensures forall p :: p in CLUSTER && p != c ==> VoteReq(p, ElectionTimeout(s.nodes[c]).1) in u.msgs
  {
    u := Do(s, Timeout(c));
    ReachOne(s, Timeout(c));
  }

  lemma VoteReqMoves(s: System, v: int, request: VoteArgs) returns (u: System)
    requires Three(s) && v in CLUSTER && VoteReq(v, request) in s.msgs
    ensures Moved(s, u, v) && u.nodes[v] == HandleRequestVote(s.nodes[v], request).0
    ensures VoteResp(request.candidateId, v, request, HandleRequestVote(s.nodes[v], request).1) in u.msgs
  {
    u := Do(s, Deliver(VoteReq(v, request)));
    ReachOne(s, Deliver(VoteReq(v, request)));
    var (n, reply) := HandleRequestVote(s.nodes[v], request);
    assert u == OnVoteReq(s, s.nodes[v], request);
    UpdateMoves(s, u, n, {VoteResp(request.candidateId, v, request, reply)}, u.h);
  }

  lemma VoteRespMoves(s: System, c: int, v: int, request: VoteArgs, reply: VoteReply) returns (u: System)
    requires Three(s) && c in CLUSTER && VoteResp(c, v, request, reply) in s.msgs
    requires Plain(HandleVoteReply(s.nodes[c], v, request, reply), c)
    ensures Moved(s, u, c) && u.nodes[c] == HandleVoteReply(s.nodes[c], v, request, reply)
  {
    u := Do(s, Deliver(VoteResp(c, v, request, reply)));
    ReachOne(s, Deliver(VoteResp(c, v, request, reply)));
  }

  lemma ProposeMoves(s: System, l: int, data: string) returns (u: System)
    requires Three(s) && l in CLUSTER
    ensures Moved(s, u, l) && u.nodes[l] == Propose(s.nodes[l], data).0
  {
    u := Do(s, ClientPropose(l, data));
    ReachOne(s, ClientPropose(l, data));
  }

  /** A message of the leader `l` and what node `p` makes of it. */
  lemma SentMoves(s: System, l: int, p: int, request: AppendArgs, n: Node, reply: AppendReply) returns (u: System)
    requires Three(s) && l in CLUSTER && p in CLUSTER && p != l && request.leaderId == l
    requires Replicate(s.nodes[l], p, s.cap) == SendAppend(request)
    requires HandleAppendEntries(s.nodes[p], request) == Done(n, reply) && Plain(n, p)
    ensures Moved(s, u, p) && u.nodes[p] == n && AppendResp(l, p, reply) in u.msgs
  {
    var t := Do(s, ReplicateTo(l, p));
    ReachOne(s, ReplicateTo(l, p));
    assert t == s.(msgs := s.msgs + {AppendReq(p, request)});
    u := Do(t, Deliver(AppendReq(p, request)));
    ReachOne(t, Deliver(AppendReq(p, request)));
    assert u == OnAppendReq(t, t.nodes[p], request);
    UpdateMoves(t, u, n, {AppendResp(l, p, reply)}, u.h);
    ReachOn(s, t, u);
  }

  lemma AnswerMoves(s: System, l: int, p: int, reply: AppendReply) returns (u: System)
    requires Three(s) && l in CLUSTER && p in CLUSTER && l != p && AppendResp(l, p, reply) in s.msgs
    requires Plain(HandleAppendReply(s.nodes[l], p, reply), l)
    ensures Moved(s, u, l) && u.nodes[l] == HandleAppendReply(s.nodes[l], p, reply)
  {
    u := Do(s, Deliver(AppendResp(l, p, reply)));
    ReachOne(s, Deliver(AppendResp(l, p, reply)));
    assert u == OnAppendResp(s, s.nodes[l], p, reply);
    UpdateMoves(s, u, HandleAppendReply(s.nodes[l], p, reply), {}, u.h);
  }

  // ----- what these come to

  /** Node `c` times out and `v` elects it. */
  lemma Elected(s: System, c: int, v: int) returns (u: System)
    requires Three(s) && c in CLUSTER && v in CLUSTER && c != v
    requires s.nodes[c].role != Leader && 0 <= s.nodes[v].currentTerm <= s.nodes[c].currentTerm
    requires s.nodes[v].log.IsUpToDate(s.nodes[c].log.LastIndex(), s.nodes[c].log.LastTerm())
    ensures TwoMoved(s, u, c, v)
    ensures Stands(u.nodes[c], Leader, s.nodes[c].currentTerm + 1, s.nodes[c].log) && Persisted(u.nodes[c])
    ensures NextIs(u.nodes[c], |s.nodes[c].log.full|)
    ensures Stands(u.nodes[v], Follower, s.nodes[c].currentTerm + 1, s.nodes[v].log)
    ensures forall p :: p in CLUSTER && p != c ==> VoteReq(p, ElectionTimeout(s.nodes[c]).1) in u.msgs
  {
    var (candidate, request) := ElectionTimeout(s.nodes[c]);
    var (voter, reply) := HandleRequestVote(s.nodes[v], request);
    var leader := HandleVoteReply(candidate, v, request, reply);
    ElectionOfTwo(s.nodes[c], s.nodes[v], candidate, request, voter, reply, leader);
    var s1 := TimeoutMoves(s, c);
    var s2 := VoteReqMoves(s1, v, request);
    u := VoteRespMoves(s2, c, v, request, reply);
    ReachOn(s, s1, s2);
    ReachOn(s, s2, u);
  }

  /** The leader sends an entry to a node that ends just before it, and the node takes it. */
  lemma EntrySent(s: System, l: int, p: int) returns (u: System, reply: AppendReply)
    requires Three(s) && l in CLUSTER && p in CLUSTER && l != p && SendsOne(s.nodes[l], p, s.cap)
    requires Hears(s.nodes[p], s.nodes[l].currentTerm) && s.nodes[l].currentTerm >= 0 && s.nodes[l].log.committed == 0
    requires var (full, next) := (s.nodes[l].log.full, s.nodes[l].nextIndex[p]);
      s.nodes[p].log == Log(full[..next], 0, 0, 0) && full[next - 1].term >= 0
    ensures Moved(s, u, p) && AppendResp(l, p, reply) in u.msgs
    ensures var (full, next) := (s.nodes[l].log.full, s.nodes[l].nextIndex[p]);
      && Stands(u.nodes[p], Follower, s.nodes[l].currentTerm, Log(full[..next + 1], 0, 0, 0))
      && reply.success && reply.term == s.nodes[l].currentTerm && reply.nextIndex == next + 1
  {
    var request := OneEntry(s.nodes[l], s.nodes[l].nextIndex[p]);
    OneSent(s.nodes[l], p, s.cap);
    NextTaken(s.nodes[l], s.nodes[p], request);
    var Done(n, answer) := HandleAppendEntries(s.nodes[p], request);
    reply := answer;
    u := SentMoves(s, l, p, request, n, reply);
  }

  lemma AnswerCounted(s: System, l: int, p: int, reply: AppendReply) returns (u: System)
    requires Three(s) && l in CLUSTER && p in CLUSTER && l != p && AppendResp(l, p, reply) in s.msgs
    requires s.nodes[l].role == Leader
    requires reply.success && reply.term == s.nodes[l].currentTerm && reply.nextIndex > s.nodes[l].nextIndex[p]
    ensures Moved(s, u, l) && u.nodes[l] == Counted(s.nodes[l], p, reply.nextIndex)
  {
    OneCounted(s.nodes[l], p, reply);
    u := AnswerMoves(s, l, p, reply);
  }

  lemma FirstOneThenOther(s: System, t: System, u: System, i: int, j: int)
    requires Moved(s, t, j) && Moved(t, u, i)
    ensures TwoMoved(s, u, i, j)
  {
    ReachOn(s, t, u);
  }

  /** And the answer comes back. */
  lemma EntryTaken(s: System, l: int, p: int) returns (u: System)
    requires Three(s) && l in CLUSTER && p in CLUSTER && l != p && SendsOne(s.nodes[l], p, s.cap)
    requires Hears(s.nodes[p], s.nodes[l].currentTerm) && s.nodes[l].currentTerm >= 0 && s.nodes[l].log.committed == 0
    requires var (full, next) := (s.nodes[l].log.full, s.nodes[l].nextIndex[p]);
      s.nodes[p].log == Log(full[..next], 0, 0, 0) && full[next - 1].term >= 0
    ensures TwoMoved(s, u, l, p)
    ensures var (full, next) := (s.nodes[l].log.full, s.nodes[l].nextIndex[p]);
      && u.nodes[l] == Counted(s.nodes[l], p, next + 1)
      && Stands(u.nodes[p], Follower, s.nodes[l].currentTerm, Log(full[..next + 1], 0, 0, 0))
  {
    var t, reply := EntrySent(s, l, p);
    u := AnswerCounted(t, l, p, reply);
    FirstOneThenOther(s, t, u, l, p);
  }
}
