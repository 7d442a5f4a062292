/** When a run cannot help being careful about what messages vouch for: the leaders' logs fit into
    one message, or messages have no limit. */
module RaftLimits {
  import opened RaftLogSpec
  import opened RaftProtocol
  import opened RaftHistory
  import opened RaftSystem
  import opened RaftFrame
  import opened RaftAppend
  import opened RaftShape
  import opened RaftSafety
  import opened RaftTheorems

  function Proposals(actions: seq<Action>): nat {
    if actions == [] then 0
    else Proposals(actions[..|actions| - 1]) + if actions[|actions| - 1].ClientPropose? then 1 else 0
  }

  /** No crash loses what is committed. */
  predicate CrashesPersisted(cluster: set<int>, cap: nat, actions: seq<Action>) {
    actions == [] ||
    (CrashesPersisted(cluster, cap, actions[..|actions| - 1]) &&
     (actions[|actions| - 1].Crash? ==> Careful(Run(cluster, cap, actions[..|actions| - 1]), actions[|actions| - 1])))
  }

  // ----- no leader has more entries than were proposed

  ghost predicate Bounded(h: History, proposals: nat) {
    forall t {:trigger h.logs[t]} :: t in h.logs ==> |h.logs[t]| <= proposals + 1
  }

  lemma LogBounded(h: History, x: seq<Entry>, proposals: nat)
    requires LogOK(h, x) && Bounded(h, proposals)
    ensures |x| <= proposals + 1
  {
    assert Anchored(h, x, |x| - 1);
  }

  lemma DeliverBounded(s: System, n: Node, m: Msg, p: nat)
    requires ShapeInv(s) && n.id in s.nodes && n == s.nodes[n.id] && m in s.msgs && m.to == n.id && Bounded(s.h, p)
    ensures Bounded(OnDeliver(s, n, m).h, p)
  {
    Parts(s, n);
    LogBounded(s.h, n.log.full, p);
    if !m.VoteResp? { OthersWriteNothing(s, n, m); }
  }

  lemma ProposeBounded(s: System, n: Node, data: string, p: nat)
    requires ShapeInv(s) && n.id in s.nodes && n == s.nodes[n.id] && Bounded(s.h, p)
    ensures Bounded(OnPropose(s, n, data).h, p + 1)
  {
    Parts(s, n);
    LogBounded(s.h, n.log.full, p);
  }

  lemma StepBounded(s: System, a: Action, p: nat)
    requires ShapeInv(s) && Bounded(s.h, p)
    ensures Bounded(Do(s, a).h, p + if a.ClientPropose? then 1 else 0)
  {
    match a
    case Deliver(m) => if m in s.msgs && m.to in s.nodes { DeliverBounded(s, s.nodes[m.to], m, p); }
    case ClientPropose(i, data) => if i in s.nodes { ProposeBounded(s, s.nodes[i], data, p); }
    case _ => assert Do(s, a).h.logs == s.h.logs;
  }

  lemma {:induction false} RunBounded(cluster: set<int>, cap: nat, actions: seq<Action>)
    requires NONE !in cluster
    ensures Bounded(Run(cluster, cap, actions).h, Proposals(actions))
  {
    if actions != [] {
      var init := actions[..|actions| - 1];
      RunBounded(cluster, cap, init);
      ShapeInRuns(cluster, cap, init);
      StepBounded(Run(cluster, cap, init), actions[|actions| - 1], Proposals(init));
    }
  }

  lemma StepKeepsCap(s: System, a: Action)
    ensures Do(s, a).cap == s.cap
  {
  }

  lemma {:induction false} RunKeepsCap(cluster: set<int>, cap: nat, actions: seq<Action>)
    ensures Run(cluster, cap, actions).cap == cap
  {
    if actions != [] {
      RunKeepsCap(cluster, cap, actions[..|actions| - 1]);
      StepKeepsCap(Run(cluster, cap, actions[..|actions| - 1]), actions[|actions| - 1]);
    }
  }

  // ----- so no message is cut short

  /** The entries reach the commit index the message carries. */
  predicate Uncut(m: AppendArgs) {
    m.leaderCommit <= m.prevLogIndex + |m.entries|
  }

  predicate AllUncut(s: System) {
    forall m :: m in s.msgs && m.AppendReq? ==> Uncut(m.append)
  }

  lemma SentUncut(s: System, n: Node, peer: int, p: nat)
    requires LogsInv(s) && n.id in s.nodes && n == s.nodes[n.id] && peer in n.nextIndex && Bounded(s.h, p)
    requires s.cap == NO_LIMIT || p <= s.cap
    ensures Replicate(n, peer, s.cap).SendAppend? ==> Uncut(Replicate(n, peer, s.cap).append)
  {
    NodeParts(s, n);
    LogBounded(s.h, n.log.full, p);
    if Replicate(n, peer, s.cap).SendAppend? {
      SentIs(n, peer, s.cap);
      SuffixReaches(n.log, n.nextIndex[peer], s.cap);
    }
  }

  lemma NoNewAppend(s: System, a: Action)
    requires !a.ReplicateTo?
    ensures forall m :: m in Do(s, a).msgs && m.AppendReq? ==> m in s.msgs
  {
    if a.Deliver? && a.msg in s.msgs && a.msg.to in s.nodes {
      var n, m := s.nodes[a.msg.to], a.msg;
      assert Do(s, a) == OnDeliver(s, n, m);
      match m
      case VoteReq(_, request) => assert OnDeliver(s, n, m) == OnVoteReq(s, n, request);
      case AppendReq(_, request) => assert OnDeliver(s, n, m) == OnAppendReq(s, n, request);
      case InstallReq(_, request) => assert OnDeliver(s, n, m) == OnInstallReq(s, n, request);
      case _ => assert OnDeliver(s, n, m).msgs == s.msgs;
    }
  }

  lemma StepUncut(s: System, a: Action, p: nat)
    requires LogsInv(s) && AllUncut(s) && Bounded(s.h, p) && (s.cap == NO_LIMIT || p <= s.cap)
    ensures AllUncut(Do(s, a))
  {
    if a.ReplicateTo? {
      if a.node in s.nodes && a.peer in s.nodes[a.node].nextIndex { SentUncut(s, s.nodes[a.node], a.peer, p); }
    } else {
      NoNewAppend(s, a);
    }
  }

  lemma {:induction false} ProposalsRise(actions: seq<Action>)
    requires actions != []
    ensures Proposals(actions[..|actions| - 1]) <= Proposals(actions)
  {
  }

  lemma {:induction false} UncutInRuns(cluster: set<int>, cap: nat, actions: seq<Action>)
    requires NONE !in cluster && CarefulRun(cluster, cap, actions)
    requires cap == NO_LIMIT || Proposals(actions) <= cap
    ensures AllUncut(Run(cluster, cap, actions))
  {
    if actions != [] {
      var init := actions[..|actions| - 1];
      ProposalsRise(actions);
      UncutInRuns(cluster, cap, init);
      LogsInRuns(cluster, cap, init);
      RunBounded(cluster, cap, init);
      RunKeepsCap(cluster, cap, init);
      StepUncut(Run(cluster, cap, init), actions[|actions| - 1], Proposals(init));
    }
  }

  /** With no limit on the entries of a message, or with no more commands than the limit, a run is
      careful exactly when its crashes lose nothing that is committed. */
  lemma {:induction false} CarefulWithinLimitIff(cluster: set<int>, cap: nat, actions: seq<Action>)
    requires NONE !in cluster && (cap == NO_LIMIT || Proposals(actions) <= cap)
    ensures CarefulRun(cluster, cap, actions) <==> CrashesPersisted(cluster, cap, actions)
  {
    if actions != [] {
      var init := actions[..|actions| - 1];
      ProposalsRise(actions);
      CarefulWithinLimitIff(cluster, cap, init);
      if CarefulRun(cluster, cap, init) {
        UncutInRuns(cluster, cap, init);
        if !actions[|actions| - 1].Crash? { UncutIsTaken(Run(cluster, cap, init), actions[|actions| - 1]); }
      }
    }
  }

  lemma UncutIsTaken(s: System, a: Action)
    requires AllUncut(s) && !a.Crash?
    ensures Careful(s, a)
  {
  }
}
