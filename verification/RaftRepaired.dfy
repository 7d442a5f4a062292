/** The code with its two slips put right: `Propose` persists, and the deferred commit of
    `handleAppendEntries` goes no further than the last new entry, as `maybeAppend` does.  Then what
    `RaftTheorems` proves of careful runs holds of every run, whatever crashes and whatever
    messages carry.

    A message that reaches the repaired handler has the effect which the same message, its commit
    index bounded, has on the handler as written; so a repaired run is a careful run of a system to
    which those messages have been added.
*/
module RaftRepaired {
  import opened RaftLogSpec
  import opened RaftLogLaws
  import opened RaftProtocol
  import opened RaftHistory
  import opened RaftSystem
  import opened RaftElection
  import opened RaftFrame
  import opened RaftShape
  import opened RaftSafety
  import opened RaftTheorems

  // ----- the repaired steps

  /** The deferred block with the bound of `maybeAppend`. */
  function BoundedCommit(log: Log, leaderCommit: int, last: int): Log {
    if log.committed < leaderCommit then log.CommitTo(Min(leaderCommit, last)) else log
  }

  function TakeEntriesBounded(n1: Node, request: AppendArgs): Outcome<AppendReply> {
    if request.prevLogIndex < n1.log.base
    then Done(Persist(n1), AppendReply(false, 0, NONE, 0))
    else
      match n1.log.MaybeAppend(request.prevLogIndex, request.prevLogTerm, request.leaderCommit, request.entries)
      case Fatal => Halt
      case NoMatch =>
        Done(Persist(n1), AppendReply(false, n1.currentTerm, n1.leaderId, n1.log.ConflictHint(request.prevLogIndex)))
      case Appended(log, last) =>
        Done(Persist(n1.(log := BoundedCommit(log, request.leaderCommit, last))),
             AppendReply(true, n1.currentTerm, n1.leaderId, last + 1))
  }

  function HandleAppendBounded(n: Node, request: AppendArgs): Outcome<AppendReply> {
    if request.term < n.currentTerm
    then Done(Persist(n), AppendReply(false, n.currentTerm, n.leaderId, 0))
    else TakeEntriesBounded(FollowLeader(n, request), request)
  }

  function OnAppendBounded(s: System, n: Node, request: AppendArgs): System {
    match HandleAppendBounded(n, request)
    case Halt => s
    case Done(n1, reply) => Update(s, n1, {AppendResp(request.leaderId, n.id, reply)}, AfterAppend(s.h, n.id, reply))
  }

  function OnProposePersisted(s: System, n: Node, data: string): System {
    var u := OnPropose(s, n, data);
    Update(u, Persist(Propose(n, data).0), {}, u.h)
  }

  function Do(s: System, a: Action): System {
    if a.Deliver? && a.msg.AppendReq? then
      if a.msg in s.msgs && a.msg.to in s.nodes then OnAppendBounded(s, s.nodes[a.msg.to], a.msg.append) else s
    else if a.ClientPropose? then
      if a.node in s.nodes then OnProposePersisted(s, s.nodes[a.node], a.data) else s
    else RaftSystem.Do(s, a)
  }

  function Run(cluster: set<int>, cap: nat, actions: seq<Action>): System {
    if actions == [] then Init(cluster, cap)
    else Do(Run(cluster, cap, actions[..|actions| - 1]), actions[|actions| - 1])
  }

  // ----- a bounded message

  function Capped(m: AppendArgs): AppendArgs {
    m.(leaderCommit := Min(m.leaderCommit, m.prevLogIndex + |m.entries|))
  }

  lemma CappedCommits(log: Log, m: AppendArgs)
    requires log.Valid()
    ensures var o := log.MaybeAppend(m.prevLogIndex, m.prevLogTerm, m.leaderCommit, m.entries);
      && log.MaybeAppend(m.prevLogIndex, m.prevLogTerm, Capped(m).leaderCommit, m.entries) == o
      && (o.Appended? ==>
            BoundedCommit(o.log, m.leaderCommit, o.last) == o.log == DeferredCommit(o.log, Capped(m).leaderCommit))
  {
    var o := log.MaybeAppend(m.prevLogIndex, m.prevLogTerm, m.leaderCommit, m.entries);
    if o.Appended? {
      AppendContract(log, m.prevLogIndex, m.prevLogTerm, m.leaderCommit, m.entries, o.log, o.last);
    }
  }

  lemma BoundedIsCapped(n: Node, m: AppendArgs)
    requires n.log.Valid()
    ensures HandleAppendBounded(n, m) == HandleAppendEntries(n, Capped(m))
  {
    CappedCommits(n.log, m);
    assert FollowLeader(n, m) == FollowLeader(n, Capped(m)) && FollowLeader(n, m).log == n.log;
  }

  lemma CappedIsTaken(n: Node, m: AppendArgs)
    ensures Takes(n, Capped(m))
  {
  }

  // ----- the invariants in every run

  predicate AllPersisted(s: System) {
    forall i :: i in s.nodes ==> s.nodes[i].hard.full == s.nodes[i].log.full
  }

  ghost predicate Inv(s: System) {
    ShapeInv(s) && LogsInv(s) && AllPersisted(s)
  }

  ghost predicate MsgInv(h: History, m: Msg) {
    MsgVotes(h, m) && MsgShape(h, m) && MsgLogs(h, m)
  }

  /** A message that says nothing false can be added. */
  lemma MessageAdded(s: System, m: Msg)
    requires ShapeInv(s) && LogsInv(s) && MsgInv(s.h, m)
    ensures ShapeInv(s.(msgs := s.msgs + {m})) && LogsInv(s.(msgs := s.msgs + {m}))
  {
  }

  /** And messages can be taken away. */
  lemma MessagesGone(s: System, u: System)
    requires ShapeInv(u) && LogsInv(u) && s.nodes == u.nodes && s.h == u.h && s.msgs <= u.msgs
    ensures ShapeInv(s) && LogsInv(s)
  {
  }

  lemma CappedIsTrue(h: History, to: int, m: AppendArgs)
    requires MsgInv(h, AppendReq(to, m))
    ensures MsgInv(h, AppendReq(to, Capped(m)))
  {
    SafeTransfer(h, h.logs[m.term], m.leaderCommit + 1, m.term, h.logs[m.term], Capped(m).leaderCommit + 1, m.term);
  }

  lemma BoundedIsUpdate(s: System, t: System, n: Node, to: int, m: AppendArgs)
    requires n.log.Valid() && t == s.(msgs := s.msgs + {AppendReq(to, Capped(m))})
    ensures var u, v := OnAppendBounded(s, n, m), OnAppendReq(t, n, Capped(m));
            u.nodes == v.nodes && u.h == v.h && u.msgs <= v.msgs
  {
    BoundedIsCapped(n, m);
  }

  lemma AppendKeeps(s: System, to: int, m: AppendArgs)
    requires ShapeInv(s) && LogsInv(s) && AppendReq(to, m) in s.msgs && to in s.nodes
    ensures var u := OnAppendBounded(s, s.nodes[to], m); ShapeInv(u) && LogsInv(u) && Later(s.h, u.h)
  {
    var n, msg := s.nodes[to], AppendReq(to, Capped(m));
    var t := s.(msgs := s.msgs + {msg});
    CappedIsTrue(s.h, to, m);
    MessageAdded(s, msg);
    NodeParts(s, n);
    CappedIsTaken(n, m);
    AppendReqShape(t, n, msg);
    AppendReqKeepsLogs(t, n, msg);
    BoundedIsUpdate(s, t, n, to, m);
    var u, v := OnAppendBounded(s, n, m), OnAppendReq(t, n, Capped(m));
    MessagesGone(u, v);
    SameIsLater(s.h, u.h);
  }

  lemma PersistKeeps(s: System, n: Node)
    requires ShapeInv(s) && LogsInv(s) && n.id in s.nodes && n == s.nodes[n.id]
    ensures ShapeInv(Update(s, Persist(n), {}, s.h)) && LogsInv(Update(s, Persist(n), {}, s.h))
  {
    Parts(s, n);
    NodeParts(s, n);
    QuietKeepsVotes(s, n, Persist(n));
    SameLogWritten(s.h, n, Persist(n));
    QuietShape(s, n, Persist(n), {}, s.h);
    PersistKeepsLogs(s.h, n);
    QuietStep(s, Persist(n));
  }

  lemma ProposeKeeps(s: System, n: Node, data: string)
    requires ShapeInv(s) && LogsInv(s) && n.id in s.nodes && n == s.nodes[n.id]
    ensures var u := OnProposePersisted(s, n, data); ShapeInv(u) && LogsInv(u) && Later(s.h, u.h)
  {
    ProposeShape(s, n, data);
    ProposeKeepsLogs(s, n, data);
    PersistKeeps(OnPropose(s, n, data), Propose(n, data).0);
    ProposeGrows(s, n, data);
  }

  /** Every other step is one of the code as written, and careful. */
  lemma OthersAreCareful(s: System, a: Action)
    requires ShapeInv(s) && AllPersisted(s) && !(a.Deliver? && a.msg.AppendReq?)
    ensures Careful(s, a)
  {
    if a.Crash? && a.node in s.nodes { Parts(s, s.nodes[a.node]); }
  }

  lemma StepKeeps(s: System, a: Action)
    requires Inv(s)
    ensures ShapeInv(Do(s, a)) && LogsInv(Do(s, a)) && Later(s.h, Do(s, a).h)
  {
    SameIsLater(s.h, s.h);
    if a.Deliver? && a.msg.AppendReq? {
      if a.msg in s.msgs && a.msg.to in s.nodes { AppendKeeps(s, a.msg.to, a.msg.append); }
    } else if a.ClientPropose? {
      if a.node in s.nodes { ProposeKeeps(s, s.nodes[a.node], a.data); }
    } else {
      OthersAreCareful(s, a);
      StepKeepsShape(s, a);
      StepKeepsLogs(s, a);
      StepGrows(s, a);
    }
  }

  // ----- everything is persisted

  predicate Saved(n: Node) {
    n.hard.full == n.log.full
  }

  lemma VotingSaves(n: Node)
    requires Saved(n)
    ensures Saved(ElectionTimeout(n).0)
    ensures forall request :: Saved(HandleRequestVote(n, request).0)
    ensures forall from, asked, reply :: Saved(HandleVoteReply(n, from, asked, reply))
  {
  }

  lemma AppendSaves(n: Node, m: AppendArgs)
    ensures HandleAppendBounded(n, m).Done? ==> Saved(HandleAppendBounded(n, m).node)
  {
  }

  lemma ReplySaves(n: Node, peer: int, reply: AppendReply)
    requires Saved(n) && peer in n.nextIndex && peer in n.matchIndex
    ensures Saved(HandleAppendReply(n, peer, reply))
  {
  }

  lemma SnapshotSaves(n: Node)
    requires Saved(n)
    ensures forall m :: Saved(HandleInstallSnapshot(n, m).0)
    ensures forall peer, m, reply :: peer in n.nextIndex && peer in n.matchIndex ==>
              Saved(HandleInstallReply(n, peer, m, reply))
    ensures forall index: nat :: Saved(TakeSnapshot(n, index))
    ensures forall snap :: Saved(PersistSnapshot(n, snap))
    ensures forall index: int :: Saved(n.(log := n.log.AppliedTo(index)))
    ensures Saved(Restart(n))
  {
  }

  lemma DeliverSaves(s: System, m: Msg)
    requires AllPersisted(s) && m in s.msgs && m.to in s.nodes && !m.AppendReq?
    ensures AllPersisted(OnDeliver(s, s.nodes[m.to], m))
  {
    var n := s.nodes[m.to];
    VotingSaves(n);
    SnapshotSaves(n);
    if m.AppendResp? && m.from in n.nextIndex && m.from in n.matchIndex { ReplySaves(n, m.from, m.appendReply); }
  }

  lemma StepSaves(s: System, a: Action)
    requires AllPersisted(s)
    ensures AllPersisted(Do(s, a))
  {
    match a
    case Timeout(i) => if i in s.nodes { VotingSaves(s.nodes[i]); }
    case Deliver(m) =>
      if m in s.msgs && m.to in s.nodes {
        if m.AppendReq? { AppendSaves(s.nodes[m.to], m.append); } else { DeliverSaves(s, m); }
      }
    case ClientPropose(_, _) =>
    case ReplicateTo(_, _) =>
    case SaveInstalled(m) => if m.InstallResp? && m.from in s.nodes { SnapshotSaves(s.nodes[m.from]); }
    case SnapshotAt(i, _) => if i in s.nodes { SnapshotSaves(s.nodes[i]); }
    case MarkApplied(i, _) => if i in s.nodes { SnapshotSaves(s.nodes[i]); }
    case Crash(i) => if i in s.nodes { SnapshotSaves(s.nodes[i]); }
  }

  // ----- all runs

  lemma {:induction false} InvInRuns(cluster: set<int>, cap: nat, actions: seq<Action>)
    requires NONE !in cluster
    ensures Inv(Run(cluster, cap, actions))
  {
    if actions == [] {
      InitShape(cluster, cap);
      InitLogs(cluster, cap);
    } else {
      InvInRuns(cluster, cap, actions[..|actions| - 1]);
      StepKeeps(Run(cluster, cap, actions[..|actions| - 1]), actions[|actions| - 1]);
      StepSaves(Run(cluster, cap, actions[..|actions| - 1]), actions[|actions| - 1]);
    }
  }

  lemma OneMore(cluster: set<int>, cap: nat, actions: seq<Action>, a: Action)
    requires NONE !in cluster
    ensures Later(Run(cluster, cap, actions).h, Run(cluster, cap, actions + [a]).h)
  {
    assert (actions + [a])[..|actions|] == actions;
    InvInRuns(cluster, cap, actions);
    StepKeeps(Run(cluster, cap, actions), a);
  }

  lemma {:induction false} RunsGrow(cluster: set<int>, cap: nat, actions: seq<Action>, more: seq<Action>)
    requires NONE !in cluster
    ensures Later(Run(cluster, cap, actions).h, Run(cluster, cap, actions + more).h)
  {
    if more == [] {
      assert actions + more == actions;
      SameIsLater(Run(cluster, cap, actions).h, Run(cluster, cap, actions).h);
    } else {
      var init, last := more[..|more| - 1], more[|more| - 1];
      assert actions + more == actions + init + [last];
      RunsGrow(cluster, cap, actions, init);
      OneMore(cluster, cap, actions + init, last);
      LaterStill(Run(cluster, cap, actions).h, Run(cluster, cap, actions + init).h,
                 Run(cluster, cap, actions + init + [last]).h);
    }
  }

  /** State machine safety, across time, in every run of the repaired code. */
  lemma RepairedStateMachineSafety(cluster: set<int>, cap: nat, actions: seq<Action>, more: seq<Action>,
                                   s: System, u: System, i: int, j: int)
    requires NONE !in cluster && s == Run(cluster, cap, actions) && u == Run(cluster, cap, actions + more)
    requires i in s.nodes && j in u.nodes
    ensures Agree(s.nodes[i].log.full, u.nodes[j].log.full,
                  Min(s.nodes[i].log.committed, u.nodes[j].log.committed) + 1)
  {
    assert Later(s.h, u.h) by { RunsGrow(cluster, cap, actions, more); }
    assert Committed(s.h, s.nodes[i]) by {
      InvInRuns(cluster, cap, actions);
      CommittedIsSafe(s, i);
    }
    assert HistoryOK(u.h) && Committed(u.h, u.nodes[j]) by {
      InvInRuns(cluster, cap, actions + more);
      CommittedIsSafe(u, j);
    }
    CommittedAgree(s.h, u.h, s.nodes[i], u.nodes[j]);
  }

  /** Leader completeness: what any node has committed, in a term up to the leader's, is in the leader's log. */
  lemma RepairedLeaderHasCommitted(cluster: set<int>, cap: nat, actions: seq<Action>, more: seq<Action>,
                                   s: System, u: System, i: int, leader: int)
    requires NONE !in cluster && s == Run(cluster, cap, actions) && u == Run(cluster, cap, actions + more)
    requires i in s.nodes && leader in u.nodes && u.nodes[leader].role == Leader
    requires s.nodes[i].currentTerm <= u.nodes[leader].currentTerm
    ensures Agree(s.nodes[i].log.full, u.nodes[leader].log.full, s.nodes[i].log.committed + 1)
  {
    assert Later(s.h, u.h) by { RunsGrow(cluster, cap, actions, more); }
    assert Committed(s.h, s.nodes[i]) by {
      InvInRuns(cluster, cap, actions);
      CommittedIsSafe(s, i);
    }
    InvInRuns(cluster, cap, actions + more);
    NodeParts(u, u.nodes[leader]);
    CommittedInLeader(s.h, u.h, s.nodes[i], u.nodes[leader].currentTerm);
  }

  /** No message can make a node exit. */
  lemma RepairedNoNodeExits(cluster: set<int>, cap: nat, actions: seq<Action>, s: System, m: Msg)
    requires NONE !in cluster && s == Run(cluster, cap, actions)
    requires m in s.msgs && m.AppendReq? && m.to in s.nodes
    ensures HandleAppendBounded(s.nodes[m.to], m.append).Done?
  {
    InvInRuns(cluster, cap, actions);
    NodeParts(s, s.nodes[m.to]);
    AppendReqParts(s, m);
    AppendNeverExits(s.h, s.nodes[m.to], m.append);
    CappedCommits(s.nodes[m.to].log, m.append);
  }

  /** What a leader believes of a peer in its term is true, except of one that compacted a snapshot over
      entries it knew to differ. */
  lemma RepairedLeaderKnowledge(cluster: set<int>, cap: nat, actions: seq<Action>, s: System, leader: int, p: int)
    requires NONE !in cluster && s == Run(cluster, cap, actions)
    requires leader in s.nodes && p in s.nodes && p != leader && s.nodes[leader].role == Leader
    requires s.nodes[p].currentTerm == s.nodes[leader].currentTerm
    ensures var l := s.nodes[leader];
            p in l.matchIndex &&
            (Agree(s.nodes[p].log.full, l.log.full, l.matchIndex[p] + 1) ||
             Misled(s.h, p, l.currentTerm, l.matchIndex[p]))
  {
    InvInRuns(cluster, cap, actions);
    NodeParts(s, s.nodes[p]);
    NodeParts(s, s.nodes[leader]);
    KnowledgeOf(s.h, s.nodes[leader], s.nodes[p]);
  }

  /** A crash loses nothing. */
  lemma RepairedCrashKeepsLog(cluster: set<int>, cap: nat, actions: seq<Action>, s: System, i: int)
    requires NONE !in cluster && s == Run(cluster, cap, actions) && i in s.nodes
    ensures Restart(s.nodes[i]).log.full == s.nodes[i].log.full
  {
    InvInRuns(cluster, cap, actions);
  }
}
