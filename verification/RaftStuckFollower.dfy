/** Two runs of three nodes, without a crash, after which a leader and a follower repeat one round for ever.

    In the first they are stuck over a conflict.  Node 1 leads term 1 and takes a command that it sends to
    nobody.  Node 3 leads term 2 and commits another command under the same index with node 2.  Node 2 is then
    elected by node 1 for term 3.  What node 1 holds behind the dummy is all of one term, so its hint is 0 however
    often it refuses, and node 2 does not follow a hint of 0: node 1 does not get the committed entry in any
    number of rounds.

    In the second node 1 leads, commits a command with node 2 and takes a snapshot.  The snapshot ends where the
    next index of node 3 is, and node 1 sends it again and again, though node 3 has installed it.
*/
module RaftStuckFollower {
  import opened Options
  import opened RaftLogSpec
  import opened RaftProtocol
  import opened RaftSystem
  import opened RaftCatchUp
  import opened RaftThreeNodes
  import RaftLostEntry

  // ----- a conflict that stays

  /** Node 1 has a command of term 1 for itself. */
  lemma FirstLeader(s: System, data: string) returns (u: System)
    requires Three(s) && forall i :: i in CLUSTER ==> Stands(s.nodes[i], Follower, 0, BARE)
    ensures TwoMoved(s, u, 1, 2)
    ensures Stands(u.nodes[1], Leader, 1, Log([DUMMY, Entry(1, data)], 0, 0, 0))
    ensures Stands(u.nodes[2], Follower, 1, BARE)
  {
    var s1 := Elected(s, 1, 2);
    u := ProposeMoves(s1, 1, data);
    assert [DUMMY] + [Entry(1, data)] == [DUMMY, Entry(1, data)];
    AsTwo(s1, u, 1, 2);
    BothMoved(s, s1, u, 1, 2);
  }

  /** Node 3 gives up a first candidacy, is elected by node 2 and commits a command with it. */
  lemma SecondLeader(s: System, data: string) returns (u: System)
    requires Three(s) && s.cap == NO_LIMIT
    requires Stands(s.nodes[2], Follower, 1, BARE) && Stands(s.nodes[3], Follower, 0, BARE)
    ensures TwoMoved(s, u, 3, 2)
    ensures var log := [DUMMY, Entry(2, data)];
      Stands(u.nodes[3], Leader, 2, Log(log, 0, 1, 0)) && Stands(u.nodes[2], Follower, 2, Log(log, 0, 0, 0))
  {
    var s1 := TimeoutMoves(s, 3);
    var s2 := Elected(s1, 3, 2);
    u := RaftLostEntry.OneCommitted(s2, 3, 2, data);
    AsTwo(s, s1, 3, 2);
    BothMoved(s, s1, s2, 3, 2);
    BothMoved(s, s2, u, 3, 2);
  }

  /** Node 2 leads a cluster in which node 1 is stuck. */
  ghost predicate Deadlocked(s: System, x: string, y: string) {
    && Three(s)
    && s.nodes[1].log == Log([DUMMY, Entry(1, x)], 0, 0, 0)
    && s.nodes[2].log == Log([DUMMY, Entry(2, y)], 0, 0, 0)
    && s.nodes[3].log == Log([DUMMY, Entry(2, y)], 0, 1, 0)
    && Meets(s.nodes[2], s.nodes[1]) && Stuck(s.nodes[2], s.nodes[1])
  }

  /** Each has one entry, and the leader compares it. */
  lemma OneOfEach(l: Node, f: Node, x: string, y: string)
    requires l.role == Leader && f.id in l.nextIndex && f.id in l.matchIndex && f.currentTerm == l.currentTerm == 3
    requires l.log == Log([DUMMY, Entry(2, y)], 0, 0, 0) && f.log == Log([DUMMY, Entry(1, x)], 0, 0, 0)
    requires l.nextIndex[f.id] == 2
    ensures Meets(l, f) && Stuck(l, f)
  {
    StuckIff(l, f);
  }

  lemma ThirdLeader(s: System, x: string, y: string) returns (u: System)
    requires Three(s) && s.nodes[3].log == Log([DUMMY, Entry(2, y)], 0, 1, 0)
    requires Stands(s.nodes[1], Leader, 1, Log([DUMMY, Entry(1, x)], 0, 0, 0))
    requires Stands(s.nodes[2], Follower, 2, Log([DUMMY, Entry(2, y)], 0, 0, 0))
    ensures Reach(s, u) && Deadlocked(u, x, y)
  {
    u := Elected(s, 2, 1);
    assert u.nodes[2].nextIndex[1] == 2;
    OneOfEach(u.nodes[2], u.nodes[1], x, y);
  }

  /** A run without a crash comes to that, whatever the two commands are. */
  lemma StuckIsReached(x: string, y: string)
    ensures exists actions :: NoCrash(actions) && Deadlocked(Run(CLUSTER, NO_LIMIT, actions), x, y)
  {
    AtTheStart(NO_LIMIT);
    var s0 := Init(CLUSTER, NO_LIMIT);
    var s1 := FirstLeader(s0, x);
    var s2 := SecondLeader(s1, y);
    var s3 := ThirdLeader(s2, x, y);
    ReachOn(s0, s1, s2);
    ReachOn(s0, s2, s3);
    var actions := IsRun(NO_LIMIT, s3);
  }

  /** However many rounds follow, node 1 keeps its own entry and does not get the committed one. */
  lemma NeverRepaired(s: System, x: string, y: string, k: nat)
    requires Deadlocked(s, x, y)
    ensures Rounds(s.nodes[2], s.nodes[1], s.cap, k).1.log.full == [DUMMY, Entry(1, x)]
    ensures Rounds(s.nodes[2], s.nodes[1], s.cap, k).0.log.full == [DUMMY, Entry(2, y)]
  {
    var l1, f1 := StuckForEver(s.nodes[2], s.nodes[1], s.cap, k);
  }

  // ----- the snapshot that is sent again and again

  function Full(x: string): seq<Entry> { [DUMMY, Entry(1, x)] }

  function Snap(x: string): Snapshot { Snapshot(1, 1, Full(x)) }

  function Offer(x: string): InstallArgs { InstallArgs(1, 1, Snap(x)) }

  /** Node 1 has compacted its one entry, and expects node 3 to need it next. */
  ghost predicate Compacted(s: System, x: string) {
    && s.nodes.Keys == CLUSTER && s.nodes[1].id == 1 && s.nodes[3].id == 3
    && s.nodes[1].currentTerm == 1 && s.nodes[1].log == Log(Full(x), 1, 1, 0) && s.nodes[1].snapshot == Some(Snap(x))
    && SnapshotAtNext(s.nodes[1], s.nodes[3]) && s.nodes[1].matchIndex[3] <= 1
  }

  lemma SnapshotIsTaken(s: System, x: string) returns (u: System)
    requires Three(s) && s.nodes[3].log == BARE && s.nodes[3].currentTerm == 0
    requires Stands(s.nodes[1], Leader, 1, Log(Full(x), 0, 1, 0))
    requires s.nodes[1].nextIndex[3] == 1 && s.nodes[1].matchIndex[3] == 0
    ensures Reach(s, u) && Compacted(u, x) && u.nodes[3] == s.nodes[3]
  {
    u := Do(s, SnapshotAt(1, 1));
    ReachOne(s, SnapshotAt(1, 1));
    assert Full(x)[..2] == Full(x);
  }

  /** The snapshot is sent, and replaces the empty log. */
  lemma SnapshotIsInstalled(s: System, x: string) returns (u: System, reply: InstallReply)
    requires Compacted(s, x) && s.nodes[3].log == BARE && s.nodes[3].currentTerm == 0
    ensures Reach(s, u) && Compacted(u, x)
    ensures u.nodes[3].log == Log(Full(x), 1, 0, 0) && u.nodes[3].snapshot == Some(Snap(x))
    ensures reply.term == 0 && InstallResp(1, 3, Offer(x), reply, Cleared) in u.msgs
  {
    var t := Do(s, ReplicateTo(1, 3));
    ReachOne(s, ReplicateTo(1, 3));
    assert Replicate(s.nodes[1], 3, s.cap) == SendInstall(Offer(x));
    assert t == s.(msgs := s.msgs + {InstallReq(3, Offer(x))});
    var m := InstallReq(3, Offer(x));
    u := Do(t, Deliver(m));
    ReachOne(t, Deliver(m));
    ReachOn(s, t, u);
    reply := HandleInstallSnapshot(t.nodes[3], Offer(x)).1;
    assert u == OnInstallReq(t, t.nodes[3], Offer(x));
  }

  /** The answer comes back, and the server of node 3 saves what it has been given. */
  lemma InstallIsAnswered(s: System, x: string, reply: InstallReply) returns (u: System)
    requires Compacted(s, x) && InstallResp(1, 3, Offer(x), reply, Cleared) in s.msgs && reply.term == 0
    requires s.nodes[3].log == Log(Full(x), 1, 0, 0)
    ensures Reach(s, u) && LoopsOn(u, x)
  {
    var m := InstallResp(1, 3, Offer(x), reply, Cleared);
    var t := Do(s, Deliver(m));
    ReachOne(s, Deliver(m));
    assert t.nodes[1] == HandleInstallReply(s.nodes[1], 3, Offer(x), reply);
    u := Do(t, SaveInstalled(m));
    ReachOne(t, SaveInstalled(m));
    ReachOn(s, t, u);
  }

  /** Node 3 has all that node 1 has, and node 1 knows it; but the next index is still that of the snapshot. */
  ghost predicate LoopsOn(s: System, x: string) {
    && Compacted(s, x) && s.nodes[1].matchIndex[3] == 1
    && s.nodes[3].log == Log(Full(x), 1, 0, 0) && s.nodes[3].snapshot == Some(Snap(x))
  }

  /** A leader of three with an empty log commits a command with `p`, and has sent nothing to the third. */
  lemma CommittedWithOne(s: System, p: int, q: int, x: string) returns (u: System)
    requires Three(s) && s.cap == NO_LIMIT && {p, q} == {2, 3}
    requires Stands(s.nodes[1], Leader, 1, BARE) && NextIs(s.nodes[1], 1) && Stands(s.nodes[p], Follower, 1, BARE)
    ensures TwoMoved(s, u, 1, p)
    ensures Stands(u.nodes[1], Leader, 1, Log(Full(x), 0, 1, 0))
    ensures u.nodes[1].nextIndex[q] == 1 && u.nodes[1].matchIndex[q] == 0
  {
    var full := Full(x);
    var s1 := ProposeMoves(s, 1, x);
    assert [DUMMY] + [Entry(1, x)] == full && full[..1] == [DUMMY] && full[..2] == full;
    u := EntryTaken(s1, 1, p);
    AsTwo(s, s1, 1, p);
    BothMoved(s, s1, u, 1, p);
  }

  /** Node 1 commits a command with node 2 and takes a snapshot behind it before it has sent anything to node 3. Node 3
      installs the snapshot, node 1 is told so, and goes on sending it: by `SnapshotForEver` in every round. */
  lemma SnapshotLoopIsReached(x: string)
    ensures exists actions :: NoCrash(actions) && LoopsOn(Run(CLUSTER, NO_LIMIT, actions), x)
  {
    AtTheStart(NO_LIMIT);
    var s0 := Init(CLUSTER, NO_LIMIT);
    var s1 := Elected(s0, 1, 2);
    var s2 := CommittedWithOne(s1, 2, 3, x);
    BothMoved(s0, s1, s2, 1, 2);
    var s3 := SnapshotIsTaken(s2, x);
    var s4, reply := SnapshotIsInstalled(s3, x);
    var s5 := InstallIsAnswered(s4, x, reply);
    ReachOn(s0, s2, s3);
    ReachOn(s0, s3, s4);
    ReachOn(s0, s4, s5);
    var actions := IsRun(NO_LIMIT, s5);
  }
}
