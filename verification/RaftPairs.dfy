/** What `RaftCatchUp` says of a leader and a follower, said of the nodes of a run. */
module RaftPairs {
  import opened RaftLogSpec
  import opened RaftLogLaws
  import opened RaftProtocol
  import opened RaftHistory
  import opened RaftSystem
  import opened RaftFrame
  import opened RaftTheorems
  import opened RaftCatchUp

  /** What a leader knows of its peers is within its log. */
  lemma LeaderIsReady(cluster: set<int>, cap: nat, actions: seq<Action>, s: System, i: int, p: int)
    requires NONE !in cluster && CarefulRun(cluster, cap, actions) && s == Run(cluster, cap, actions)
    requires i in s.nodes && s.nodes[i].role == Leader && p in s.nodes[i].peers
    ensures var l := s.nodes[i];
      && p in l.nextIndex && p in l.matchIndex && 1 <= l.nextIndex[p] <= |l.log.full|
      && 0 <= l.currentTerm && l.log.Valid() && TermsFrom(l.log.full, 0)
  {
    LogsInRuns(cluster, cap, actions);
    var l := s.nodes[i];
    assert NodeLogs(s.h, l);
    assert 0 <= l.log.full[0].term <= l.currentTerm;
  }

  /** In a careful run a leader and any peer that has not heard of a later term and has compacted no more than it has
      committed meet as `RaftCatchUp` wants them. */
  lemma PairedInRuns(cluster: set<int>, cap: nat, actions: seq<Action>, s: System, i: int, p: int)
    requires NONE !in cluster && CarefulRun(cluster, cap, actions) && s == Run(cluster, cap, actions)
    requires i in s.nodes && s.nodes[i].role == Leader && p in s.nodes[i].peers && p in s.nodes
    requires s.nodes[p].currentTerm <= s.nodes[i].currentTerm && s.nodes[p].log.base <= s.nodes[p].log.committed
    ensures Paired(s.nodes[i], s.nodes[p])
  {
    var l, f := s.nodes[i], s.nodes[p];
    LeaderIsReady(cluster, cap, actions, s, i, p);
    LogsInRuns(cluster, cap, actions);
    assert NodeLogs(s.h, f);
    assert actions + [] == actions;
    LeaderHasCommitted(cluster, cap, actions, [], s, s, p, i);
    assert f.log.full[..f.log.committed + 1] == l.log.full[..f.log.committed + 1];
    assert l.log.full[f.log.base] == f.log.full[f.log.base];
    forall k | 0 <= k && k < |l.log.full| && k < |f.log.full| && l.log.full[k].term == f.log.full[k].term
      ensures l.log.full[..k + 1] == f.log.full[..k + 1]
    {
      LogMatchingInRuns(cluster, cap, actions, s, i, p, k);
    }
  }
}
