/** Why state machine safety asks that no node crash with committed entries it has not persisted: a
    leader appends without `persist()`, and a leader that starts again without the entry helps
    to commit another one in its place.

    Three nodes.  Node 1 leads term 1 and commits an entry with node 2, which learns of it; then
    node 1 crashes, and node 3, which has heard nothing, is elected by node 1 for term 2 and
    commits another entry under the same index.
*/
module RaftLostEntry {
  import opened RaftLogSpec
  import opened RaftProtocol
  import opened RaftHistory
  import opened RaftSystem
  import opened RaftThreeNodes

  /** The next message tells a node what is committed. */
  lemma CommitCarried(l: Node, p: Node, e: Entry)
    requires Plain(l, l.id) && Plain(p, p.id) && p.id in l.peers
    requires Stands(l, Leader, e.term, Log([DUMMY, e], 0, 1, 0)) && l.nextIndex[p.id] == 2 && e.term > 0
    requires Stands(p, Follower, e.term, Log([DUMMY, e], 0, 0, 0))
    ensures var request := AppendArgs(e.term, l.id, 1, e.term, [], 1);
      && Replicate(l, p.id, NO_LIMIT) == SendAppend(request)
      && var o := HandleAppendEntries(p, request);
      && o.Done? && Plain(o.node, p.id) && Stands(o.node, Follower, e.term, Log([DUMMY, e], 0, 1, 0))
  {
    assert p.log.FindConflict(2, []) == 0;
  }

  /** A leader of three with an empty log takes a command and commits it with `p`. */
  lemma OneCommitted(s: System, l: int, p: int, data: string) returns (u: System)
    requires Three(s) && s.cap == NO_LIMIT && l in CLUSTER && p in CLUSTER && l != p
    requires Stands(s.nodes[l], Leader, s.nodes[l].currentTerm, BARE) && NextIs(s.nodes[l], 1)
    requires Stands(s.nodes[p], Follower, s.nodes[l].currentTerm, BARE)
    ensures TwoMoved(s, u, l, p)
    ensures var t := s.nodes[l].currentTerm; var full := [DUMMY, Entry(t, data)];
      && Stands(u.nodes[l], Leader, t, Log(full, 0, 1, 0)) && u.nodes[l].hard == s.nodes[l].hard
      && u.nodes[l].nextIndex[p] == 2
      && Stands(u.nodes[p], Follower, t, Log(full, 0, 0, 0))
  {
    var full := [DUMMY, Entry(s.nodes[l].currentTerm, data)];
    var s1 := ProposeMoves(s, l, data);
    assert [DUMMY] + [Entry(s.nodes[l].currentTerm, data)] == full;
    assert full[..1] == [DUMMY] && full[..2] == full;
    u := EntryTaken(s1, l, p);
    AsTwo(s, s1, l, p);
    BothMoved(s, s1, u, l, p);
  }

  /** Nodes 1 and 2 have committed an entry that node 1 has not persisted. */
  lemma UpToTheCommit(s: System, data: string) returns (u: System)
    requires Three(s) && s.cap == NO_LIMIT && forall i :: i in CLUSTER ==> Stands(s.nodes[i], Follower, 0, BARE)
    ensures TwoMoved(s, u, 1, 2)
    ensures var full := [DUMMY, Entry(1, data)];
      && Stands(u.nodes[1], Leader, 1, Log(full, 0, 1, 0)) && u.nodes[1].nextIndex[2] == 2
      && u.nodes[1].hard.term == 1 && u.nodes[1].hard.full == [DUMMY] && u.nodes[1].hard.commit == 0
      && Stands(u.nodes[2], Follower, 1, Log(full, 0, 0, 0))
  {
    var s1 := Elected(s, 1, 2);
    u := OneCommitted(s1, 1, 2, data);
    BothMoved(s, s1, u, 1, 2);
  }

  /** And node 2 learns of it. */
  lemma UpToTheCrash(s: System, data: string) returns (u: System)
    requires Three(s) && s.cap == NO_LIMIT && forall i :: i in CLUSTER ==> Stands(s.nodes[i], Follower, 0, BARE)
    ensures TwoMoved(s, u, 1, 2)
    ensures u.nodes[1].hard.term == 1 && u.nodes[1].hard.full == [DUMMY] && u.nodes[1].hard.commit == 0
    ensures Stands(u.nodes[2], Follower, 1, Log([DUMMY, Entry(1, data)], 0, 1, 0))
  {
    var s1 := UpToTheCommit(s, data);
    CommitCarried(s1.nodes[1], s1.nodes[2], Entry(1, data));
    var request := AppendArgs(1, 1, 1, 1, [], 1);
    var Done(n, reply) := HandleAppendEntries(s1.nodes[2], request);
    u := SentMoves(s1, 1, 2, request, n, reply);
    AsTwo(s1, u, 2, 1);
    BothMoved(s, s1, u, 1, 2);
  }

  /** Node 1 loses its entry, and nothing else changes. */
  lemma Crashed(s: System)
    requires Three(s) && s.nodes[1].hard.term == 1 && s.nodes[1].hard.full == [DUMMY] && s.nodes[1].hard.commit == 0
    ensures var u := Do(s, Crash(1));
      && Three(u) && u.cap == s.cap && u.nodes[2] == s.nodes[2] && u.nodes[3] == s.nodes[3]
      && Stands(u.nodes[1], Follower, 1, BARE)
  {
  }

  /** After it: node 3 gives up a first candidacy, wins the next with the vote of node 1, and
      commits another entry with it. */
  lemma AfterTheCrash(s: System, data: string) returns (u: System)
    requires Three(s) && s.cap == NO_LIMIT
    requires Stands(s.nodes[1], Follower, 1, BARE) && Stands(s.nodes[3], Follower, 0, BARE)
    ensures TwoMoved(s, u, 3, 1)
    ensures u.nodes[3].log == Log([DUMMY, Entry(2, data)], 0, 1, 0)
  {
    var s1 := TimeoutMoves(s, 3);
    var s2 := Elected(s1, 3, 1);
    u := OneCommitted(s2, 3, 1, data);
    AsTwo(s, s1, 3, 1);
    BothMoved(s, s1, s2, 3, 1);
    BothMoved(s, s2, u, 3, 1);
  }

  /** Nodes 2 and 3 have committed different entries under index 1. */
  ghost predicate Disagree(s: System, x: string, y: string) {
    && 2 in s.nodes && 3 in s.nodes
    && s.nodes[2].log == Log([DUMMY, Entry(1, x)], 0, 1, 0) && s.nodes[3].log == Log([DUMMY, Entry(2, y)], 0, 1, 0)
    && !Agree(s.nodes[2].log.full, s.nodes[3].log.full, Min(s.nodes[2].log.committed, s.nodes[3].log.committed) + 1)
  }

  lemma Disagreement(s: System, x: string, y: string)
    requires Three(s) && s.nodes[2].log == Log([DUMMY, Entry(1, x)], 0, 1, 0)
    requires s.nodes[3].log == Log([DUMMY, Entry(2, y)], 0, 1, 0)
    ensures Disagree(s, x, y)
  {
    assert s.nodes[2].log.full[1].term != s.nodes[3].log.full[1].term;
  }

  lemma RunOver(s: System, a: Action, u: System) returns (actions: seq<Action>)
    requires Reach(Init(CLUSTER, NO_LIMIT), s) && Reach(Do(s, a), u)
    ensures Run(CLUSTER, NO_LIMIT, actions) == u
  {
    var acts := IsRun(NO_LIMIT, s);
    var more :| NoCrash(more) && Onward(Do(s, a), more) == u;
    RunOnward(CLUSTER, NO_LIMIT, acts);
    assert [a][..0] == [];
    assert Onward(s, [a]) == Do(s, a);
    OnwardOn(Init(CLUSTER, NO_LIMIT), acts, [a]);
    OnwardOn(Init(CLUSTER, NO_LIMIT), acts + [a], more);
    actions := acts + [a] + more;
    RunOnward(CLUSTER, NO_LIMIT, actions);
  }

  /** A run comes to that in which nothing is cut and one node crashes. */
  lemma LostEntryBreaksSafety(x: string, y: string)
    ensures exists actions :: Disagree(Run(CLUSTER, NO_LIMIT, actions), x, y)
  {
    AtTheStart(NO_LIMIT);
    var s := UpToTheCrash(Init(CLUSTER, NO_LIMIT), x);
    Crashed(s);
    var u := AfterTheCrash(Do(s, Crash(1)), y);
    Disagreement(u, x, y);
    var actions := RunOver(s, Crash(1), u);
  }
}
