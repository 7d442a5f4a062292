/** Why state machine safety asks that messages vouch for what the node that takes them commits: a
    follower moves its commit index up to its own last index, past what the message vouches for.

    Three nodes and one entry a message.  Node 1 leads term 1 with two entries, of which node 3
    takes the first; node 3 leads term 2 and adds an entry of its own; node 1 leads term 3 and
    commits its log with node 2.  Node 3 then rejects what node 1 sends it first, is
    sent its first entry again, and commits the second, which is its own.
*/
module RaftCutMessage {
  import opened RaftLogSpec
  import opened RaftProtocol
  import opened RaftHistory
  import opened RaftSystem
  import opened RaftThreeNodes

  const X: Entry := Entry(1, "x")
  const Y: Entry := Entry(1, "y")
  const STALE: Entry := Entry(2, "stale")
  const Z: Entry := Entry(3, "z")

  function Fresh(full: seq<Entry>): Log { Log(full, 0, 0, 0) }

  /** Node 1 leads term 1 with two entries, and node 3 has the first. */
  lemma FirstTerm(s: System) returns (u: System)
    requires Three(s) && s.cap == 1 && forall i :: i in CLUSTER ==> Stands(s.nodes[i], Follower, 0, BARE)
    ensures Three(u) && u.cap == 1 && Reach(s, u)
    ensures Stands(u.nodes[1], Leader, 1, Fresh([DUMMY, X, Y]))
    ensures Stands(u.nodes[2], Follower, 1, BARE) && Stands(u.nodes[3], Follower, 1, Fresh([DUMMY, X]))
  {
    var s1 := Elected(s, 1, 2);
    var s2 := ProposeMoves(s1, 1, "x");
    var s3 := ProposeMoves(s2, 1, "y");
    assert [DUMMY] + [X] + [Y] == [DUMMY, X, Y];
    assert [DUMMY, X, Y][..1] == [DUMMY] && [DUMMY, X, Y][..2] == [DUMMY, X];
    var s4, _ := EntrySent(s3, 1, 3);
    u := s4;
    ReachOn(s, s1, s2);
    ReachOn(s, s2, s3);
    ReachOn(s, s3, u);
  }

  /** Node 3 leads term 2, and node 1, which hears of it, votes for no one. */
  lemma SecondTerm(s: System) returns (u: System)
    requires Three(s) && s.cap == 1 && Stands(s.nodes[1], Leader, 1, Fresh([DUMMY, X, Y]))
    requires Stands(s.nodes[2], Follower, 1, BARE) && Stands(s.nodes[3], Follower, 1, Fresh([DUMMY, X]))
    ensures Three(u) && u.cap == 1 && Reach(s, u)
    ensures Stands(u.nodes[1], Follower, 2, Fresh([DUMMY, X, Y]))
    ensures Stands(u.nodes[2], Follower, 2, BARE) && Stands(u.nodes[3], Leader, 2, Fresh([DUMMY, X, STALE]))
  {
    var s1 := Elected(s, 3, 2);
    var s2 := ProposeMoves(s1, 3, "stale");
    assert [DUMMY, X] + [STALE] == [DUMMY, X, STALE];
    u := VoteReqMoves(s2, 1, VoteArgs(2, 3, 1, 1));
    ReachOn(s, s1, s2);
    ReachOn(s, s2, u);
  }

  lemma Refusal(p: Node, request: AppendArgs)
    requires Plain(p, p.id) && Hears(p, request.term) && request.prevLogIndex >= 0
    requires !p.log.MatchLog(request.prevLogIndex, request.prevLogTerm) && p.log.ConflictHint(request.prevLogIndex) == 1
    ensures var o := HandleAppendEntries(p, request);
      && o.Done? && Plain(o.node, p.id) && o.node.role == Follower && o.node.currentTerm == request.term
      && o.node.log == p.log && !o.reply.success && o.reply.term == request.term && o.reply.nextIndex == 1
  {
    FollowsLeader(p, request);
  }

  /** A node whose log does not hold the entry before those sent says where to go on. */
  lemma Refused(s: System, l: int, p: int) returns (u: System)
    requires Three(s) && l in CLUSTER && p in CLUSTER && l != p && SendsOne(s.nodes[l], p, s.cap)
    requires Hears(s.nodes[p], s.nodes[l].currentTerm) && s.nodes[l].currentTerm >= 0
    requires var (leader, prev) := (s.nodes[l], s.nodes[l].nextIndex[p] - 1);
      !s.nodes[p].log.MatchLog(prev, leader.log.full[prev].term) && s.nodes[p].log.ConflictHint(prev) == 1 &&
      0 <= leader.matchIndex[p]
    ensures TwoMoved(s, u, l, p)
    ensures u.nodes[l] == s.nodes[l].(nextIndex := s.nodes[l].nextIndex[p := 1],
            matchIndex := s.nodes[l].matchIndex[p := 0])
    ensures Stands(u.nodes[p], Follower, s.nodes[l].currentTerm, s.nodes[p].log)
  {
    var request := OneEntry(s.nodes[l], s.nodes[l].nextIndex[p]);
    OneSent(s.nodes[l], p, s.cap);
    Refusal(s.nodes[p], request);
    var Done(n, reply) := HandleAppendEntries(s.nodes[p], request);
    var t := SentMoves(s, l, p, request, n, reply);
    u := AnswerMoves(t, l, p, reply);
    ReachOn(s, t, u);
  }

  const FULL: seq<Entry> := [DUMMY, X, Y, Z]

  /** Node 1 leads term 3 with its whole log, and node 2 has the entries before `k`. */
  predicate Spreading(s: System, k: int) {
    && Three(s) && s.cap == 1 && 1 <= k <= |FULL|
    && Stands(s.nodes[1], Leader, 3, Fresh(FULL)) && s.nodes[1].nextIndex[2] == k
    && s.nodes[1].nextIndex[3] == 3 && s.nodes[1].matchIndex[3] == 0
    && Stands(s.nodes[2], Follower, 3, Fresh(FULL[..k]))
  }

  lemma SpreadsOn(s: System, k: int) returns (u: System)
    requires Spreading(s, k) && k < 3
    ensures TwoMoved(s, u, 1, 2) && Spreading(u, k + 1)
  {
    assert FULL[k - 1].term >= 0 && FULL[k].term == 1;
    u := EntryTaken(s, 1, 2);
  }

  /** Only the last entry is one of its term. */
  lemma LastSpread(s: System) returns (u: System)
    requires Spreading(s, 3)
    ensures TwoMoved(s, u, 1, 2)
    ensures Stands(u.nodes[1], Leader, 3, Log(FULL, 0, 3, 0))
    ensures u.nodes[1].nextIndex[3] == 3 && u.nodes[1].matchIndex[3] == 0
  {
    assert FULL[2].term >= 0 && FULL[3].term == 3;
    u := EntryTaken(s, 1, 2);
  }

  /** Node 1 leads term 3, and node 2 refuses what it sends first. */
  lemma ThirdTerm(s: System) returns (u: System)
    requires Three(s) && s.cap == 1 && Stands(s.nodes[1], Follower, 2, Fresh([DUMMY, X, Y]))
    requires Stands(s.nodes[2], Follower, 2, BARE)
    ensures TwoMoved(s, u, 1, 2) && Spreading(u, 1)
  {
    var s1 := Elected(s, 1, 2);
    var s2 := ProposeMoves(s1, 1, "z");
    assert [DUMMY, X, Y] + [Z] == FULL && FULL[..1] == [DUMMY];
    AsTwo(s1, s2, 1, 2);
    BothMoved(s, s1, s2, 1, 2);
    u := Refused(s2, 1, 2);
    BothMoved(s, s2, u, 1, 2);
  }

  /** Node 1 commits its three entries with node 2. */
  lemma AllCommitted(s: System) returns (u: System)
    requires Spreading(s, 1)
    ensures TwoMoved(s, u, 1, 2)
    ensures Stands(u.nodes[1], Leader, 3, Log(FULL, 0, 3, 0))
    ensures u.nodes[1].nextIndex[3] == 3 && u.nodes[1].matchIndex[3] == 0
  {
    var s1 := SpreadsOn(s, 1);
    var s2 := SpreadsOn(s1, 2);
    u := LastSpread(s2);
    BothMoved(s, s1, s2, 1, 2);
    BothMoved(s, s2, u, 1, 2);
  }

  /** One entry again, which node 3 has, and the commit index with it. */
  lemma StaleCommitted(p: Node)
    requires Plain(p, 3) && Stands(p, Follower, 3, Fresh([DUMMY, X, STALE]))
    ensures var o := HandleAppendEntries(p, AppendArgs(3, 1, 0, 0, [X], 3));
      o.Done? && Plain(o.node, 3) && o.node.log == Log([DUMMY, X, STALE], 0, 2, 0)
  {
    var request := AppendArgs(3, 1, 0, 0, [X], 3);
    FollowsLeader(p, request);
    assert p.log.FindConflict(1, [X]) == 0;
    assert p.log.MaybeAppend(0, 0, 3, [X]) == Appended(Log([DUMMY, X, STALE], 0, 1, 0), 1);
  }

  /** Node 1 goes back to the first entry of node 3. */
  lemma SentAgain(s: System) returns (u: System)
    requires Three(s) && s.cap == 1 && Stands(s.nodes[1], Leader, 3, Log(FULL, 0, 3, 0))
    requires s.nodes[1].nextIndex[3] == 3 && s.nodes[1].matchIndex[3] == 0
    requires Stands(s.nodes[3], Leader, 2, Fresh([DUMMY, X, STALE]))
    ensures TwoMoved(s, u, 1, 3)
    ensures u.nodes[1].log == Log(FULL, 0, 3, 0) && u.nodes[3].log == Log([DUMMY, X, STALE], 0, 2, 0)
  {
    var log := s.nodes[3].log;
    assert log.ScanBack(1, 2) == 1 && log.ConflictHint(2) == 1;
    var s1 := Refused(s, 1, 3);
    var request := AppendArgs(3, 1, 0, 0, [X], 3);
    OneSent(s1.nodes[1], 3, 1);
    StaleCommitted(s1.nodes[3]);
    var Done(n, reply) := HandleAppendEntries(s1.nodes[3], request);
    u := SentMoves(s1, 1, 3, request, n, reply);
    AsTwo(s1, u, 3, 1);
    BothMoved(s, s1, u, 1, 3);
  }

  /** Nodes 1 and 3 have committed different entries under index 2. */
  ghost predicate Disagree(s: System) {
    && 1 in s.nodes && 3 in s.nodes
    && s.nodes[1].log == Log(FULL, 0, 3, 0) && s.nodes[3].log == Log([DUMMY, X, STALE], 0, 2, 0)
    && !Agree(s.nodes[1].log.full, s.nodes[3].log.full, Min(s.nodes[1].log.committed, s.nodes[3].log.committed) + 1)
  }

  lemma Disagreement(s: System)
    requires Three(s) && s.nodes[1].log == Log(FULL, 0, 3, 0) && s.nodes[3].log == Log([DUMMY, X, STALE], 0, 2, 0)
    ensures Disagree(s)
  {
    assert s.nodes[1].log.full[2] == Y && s.nodes[3].log.full[2] == STALE;
  }

  lemma AllTerms(s: System) returns (u: System)
    requires Three(s) && s.cap == 1 && forall i :: i in CLUSTER ==> Stands(s.nodes[i], Follower, 0, BARE)
    ensures Reach(s, u) && Disagree(u)
  {
    var s1 := FirstTerm(s);
    var s2 := SecondTerm(s1);
    var s3 := ThirdTerm(s2);
    var s4 := AllCommitted(s3);
    u := SentAgain(s4);
    Disagreement(u);
    ReachOn(s, s1, s2);
    ReachOn(s, s2, s3);
    ReachOn(s, s3, s4);
    ReachOn(s, s4, u);
  }

  /** A run without crashes comes to that. */
  lemma CutMessageBreaksSafety()
    ensures exists actions :: NoCrash(actions) && Disagree(Run(CLUSTER, 1, actions))
  {
    AtTheStart(1);
    var u := AllTerms(Init(CLUSTER, 1));
    var actions := IsRun(1, u);
  }
}
