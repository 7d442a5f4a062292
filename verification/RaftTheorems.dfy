/** The main results about whole runs.

    Election safety (module `RaftElection`), log matching and leader append-only hold of all runs.
    What concerns commitment is proved of careful runs.  A run is careful if no node crashes with
    committed entries that it has not persisted, and none takes a message which does not vouch for
    all that the node then commits; both are conditions a node can check before it acts, and
    neither can be dropped: `RaftLostEntry` and `RaftCutMessage` are runs that break only the
    one or only the other.
*/
module RaftTheorems {
  import opened Options
  import opened RaftLogSpec
  import opened RaftProtocol
  import opened RaftHistory
  import opened RaftSystem
  import opened RaftElection
  import opened RaftFrame
  import opened RaftAppend
  import opened RaftShape
  import opened RaftSafety

  /** Everything the node has committed has been written by `persist`. */
  predicate CommittedPersisted(n: Node) {
    n.log.committed < |n.hard.full|
  }

  predicate Careful(s: System, a: Action) {
    match a
    case Deliver(m) => m in s.msgs && m.AppendReq? && m.to in s.nodes ==> Takes(s.nodes[m.to], m.append)
    case Crash(i) => i in s.nodes ==> CommittedPersisted(s.nodes[i])
    case _ => true
  }

  predicate CarefulRun(cluster: set<int>, cap: nat, actions: seq<Action>) {
    actions == [] ||
    (CarefulRun(cluster, cap, actions[..|actions| - 1]) &&
     Careful(Run(cluster, cap, actions[..|actions| - 1]), actions[|actions| - 1]))
  }

  // ----- the remaining steps

  lemma AppendSent(h: History, n: Node, peer: int, cap: nat)
    requires NodeLogs(h, n) && n.role == Leader && peer in n.nextIndex && peer in n.peers
    requires Replicate(n, peer, cap).SendAppend?
    ensures AppendOK(h, Replicate(n, peer, cap).append)
  {
    SentIs(n, peer, cap);
    SuffixIsStretch(n.log, n.nextIndex[peer], cap);
  }

  lemma InstallSent(h: History, n: Node, peer: int, cap: nat)
    requires HistoryOK(h) && NodeLogs(h, n) && n.role == Leader && peer in n.nextIndex
    requires Replicate(n, peer, cap).SendInstall?
    ensures InstallOK(h, Replicate(n, peer, cap).install)
  {
    var snap := n.snapshot.value;
    SafeInLeader(h, snap.prefix, |snap.prefix|, n.currentTerm, n.currentTerm);
  }

  lemma ReplicateKeepsLogs(s: System, n: Node, peer: int)
    requires LogsInv(s) && n.id in s.nodes && n == s.nodes[n.id] && peer in n.nextIndex
    ensures LogsInv(OnReplicate(s, n, peer))
  {
    NodeParts(s, n);
    if Replicate(n, peer, s.cap).SendAppend? { AppendSent(s.h, n, peer, s.cap); }
    if Replicate(n, peer, s.cap).SendInstall? { InstallSent(s.h, n, peer, s.cap); }
    ReplicateKeepsVotes(s, n, peer);
    OnReplicateIs(s, n, peer);
    var u := OnReplicate(s, n, peer);
    forall m | m in u.msgs ensures MsgLogs(u.h, m) {
      if m in s.msgs { MsgPart(s, m); }
    }
  }

  lemma SameRole(h: History, n: Node, log: Log, snap: Option<Snapshot>)
    requires NodeLogs(h, n) && Held(h, n.id, log, n.currentTerm)
    requires log.full == n.log.full && log.committed == n.log.committed
    requires snap.Some? ==> SnapOK(h, snap.value, n.currentTerm)
    ensures NodeLogs(h, n.(log := log, snapshot := snap))
    ensures NodeLogs(h, Persist(n.(log := log, snapshot := snap)))
  {
  }

  lemma TakeSnapshotKeepsLogs(h: History, n: Node, index: nat)
    requires NodeLogs(h, n)
    ensures NodeLogs(h, TakeSnapshot(n, index))
  {
    if n.log.CanSnapshot(index) {
      var snap := Snapshot(index, n.log.Term(index), n.log.full[..index + 1]);
      PrefixOK(h, snap.prefix, n.log.full);
      SafeTransfer(h, n.log.full, n.log.committed + 1, n.currentTerm, snap.prefix, index + 1, n.currentTerm);
      CompactedHeld(h, n.id, n.log, n.currentTerm, index);
      SameRole(h, n, n.log.Compact(index), Some(snap));
    }
  }

  /** A node that answered a snapshot has reached the term of the snapshot's message. */
  lemma AnsweredTerm(h: History, n: Node, t: int, index: nat)
    requires NodeLogs(h, n) && (Acked(h, n.id, t, index) || Misled(h, n.id, t, index))
    ensures t <= n.currentTerm
  {
  }

  lemma SaveInstalledKeepsLogs(s: System, m: Msg)
    requires LogsInv(s) && m in s.msgs && m.InstallResp? && !m.branch.Stale? && m.from in s.nodes
    ensures NodeLogs(s.h, PersistSnapshot(s.nodes[m.from], m.offered.snapshot))
  {
    var n, snap := s.nodes[m.from], m.offered.snapshot;
    MsgPart(s, m);
    AnsweredTerm(s.h, n, m.offered.term, snap.index);
    SnapLater(s.h, snap, m.offered.term, n.currentTerm);
    CompactedHeld(s.h, n.id, n.log, n.currentTerm, snap.index);
    SameRole(s.h, n, n.log.Compact(snap.index), Some(snap));
  }

  lemma MarkAppliedKeepsLogs(h: History, n: Node, index: nat)
    requires NodeLogs(h, n)
    ensures NodeLogs(h, n.(log := n.log.AppliedTo(index)))
  {
    var log := n.log.AppliedTo(index);
    assert Held(h, n.id, log, n.currentTerm);
    SameRole(h, n, log, n.snapshot);
  }

  /** What a node has acknowledged is persisted, if all it has committed is. */
  lemma RestartKeeps(h: History, n: Node, t: int, k: int)
    requires LogsOK(h) && NodeLogs(h, n) && NodeShape(h, n) && CommittedPersisted(n)
    requires Acked(h, n.id, t, k) && 0 <= k
    ensures t <= n.currentTerm && Kept(h, n.hard.full, t, k, n.currentTerm)
  {
    assert Kept(h, n.log.full, t, k, n.currentTerm);
    assert TermsUpTo(h.logs[t], t);
    assert n.role == Leader ==> OwnAcksCommitted(h, n.id, n.currentTerm, n.log.committed);
    if Agree(n.log.full, h.logs[t], k + 1) {
      assert n.log.full[k] == h.logs[t][k] && k < |n.hard.full|;
      assert forall i :: 0 <= i < |n.hard.full| ==> n.hard.full[i] == n.log.full[i];
    }
  }

  lemma RestartHeld(h: History, n: Node)
    requires LogsOK(h) && NodeLogs(h, n) && NodeShape(h, n) && CommittedPersisted(n)
    ensures Held(h, n.id, Log(n.hard.full, n.hard.base, n.hard.commit, n.hard.base), n.currentTerm)
  {
    PrefixOK(h, n.hard.full, n.log.full);
    assert forall i :: 0 <= i < |n.hard.full| ==> n.hard.full[i] == n.log.full[i];
    forall t, k | Acked(h, n.id, t, k) && 0 <= k
      ensures t <= n.currentTerm && Kept(h, n.hard.full, t, k, n.currentTerm)
    {
      RestartKeeps(h, n, t, k);
    }
    SafeTransfer(h, n.log.full, n.log.committed + 1, n.currentTerm, n.hard.full, n.hard.commit + 1, n.currentTerm);
  }

  lemma RestartKeepsLogs(h: History, n: Node)
    requires LogsOK(h) && NodeVotes(h, n) && NodeLogs(h, n) && NodeShape(h, n) && CommittedPersisted(n)
    ensures NodeLogs(h, Restart(n))
  {
    RestartHeld(h, n);
  }

  lemma DeliverKeepsLogs(s: System, n: Node, m: Msg)
    requires LogsInv(s) && n.id in s.nodes && n == s.nodes[n.id] && m in s.msgs && m.to == n.id
    requires m.AppendReq? ==> Takes(n, m.append)
    ensures LogsInv(OnDeliver(s, n, m))
  {
    match m
    case VoteReq(_, _) => VoteReqKeepsLogs(s, n, m);
    case VoteResp(_, _, _, _) => VoteRespKeepsLogs(s, n, m);
    case AppendReq(_, _) => AppendReqKeepsLogs(s, n, m);
    case AppendResp(_, _, _) => AppendRespKeepsLogs(s, n, m);
    case InstallReq(_, _) => InstallReqKeepsLogs(s, n, m);
    case InstallResp(_, _, _, _, _) => InstallRespKeepsLogs(s, n, m);
  }

  lemma QuietActionKeepsLogs(s: System, a: Action, n1: Node)
    requires LogsInv(s) && n1.id in s.nodes && Do(s, a) == Update(s, n1, {}, s.h) && NodeLogs(s.h, n1)
    ensures LogsInv(Do(s, a))
  {
    StepKeepsVotes(s, a);
    QuietStep(s, n1);
  }

  lemma LocalStepKeepsLogs(s: System, a: Action)
    requires ShapeInv(s) && LogsInv(s) && Careful(s, a)
    requires (a.SnapshotAt? || a.MarkApplied? || a.Crash?) && a.node in s.nodes
    ensures LogsInv(Do(s, a))
  {
    var n := s.nodes[a.node];
    NodeParts(s, n);
    match a
    case SnapshotAt(_, index) =>
      TakeSnapshotKeepsLogs(s.h, n, index);
      QuietActionKeepsLogs(s, a, TakeSnapshot(n, index));
    case MarkApplied(_, index) =>
      MarkAppliedKeepsLogs(s.h, n, index);
      QuietActionKeepsLogs(s, a, n.(log := n.log.AppliedTo(index)));
    case Crash(_) =>
      Parts(s, n);
      RestartKeepsLogs(s.h, n);
      QuietActionKeepsLogs(s, a, Restart(n));
  }

  lemma StepKeepsLogs(s: System, a: Action)
    requires ShapeInv(s) && LogsInv(s) && Careful(s, a)
    ensures LogsInv(Do(s, a))
  {
    match a
    case Timeout(i) => if i in s.nodes { TimeoutKeepsLogs(s, s.nodes[i]); }
    case Deliver(m) => if m in s.msgs && m.to in s.nodes { DeliverKeepsLogs(s, s.nodes[m.to], m); }
    case ClientPropose(i, data) => if i in s.nodes { ProposeKeepsLogs(s, s.nodes[i], data); }
    case ReplicateTo(i, p) =>
      if i in s.nodes && p in s.nodes[i].nextIndex { ReplicateKeepsLogs(s, s.nodes[i], p); }
    case SnapshotAt(i, _) => if i in s.nodes { LocalStepKeepsLogs(s, a); }
    case MarkApplied(i, _) => if i in s.nodes { LocalStepKeepsLogs(s, a); }
    case Crash(i) => if i in s.nodes { LocalStepKeepsLogs(s, a); }
    case SaveInstalled(m) =>
      if m in s.msgs && m.InstallResp? && (m.branch.Cleared? || m.branch.Compacted?) && m.from in s.nodes {
        SaveInstalledKeepsLogs(s, m);
        QuietActionKeepsLogs(s, a, PersistSnapshot(s.nodes[m.from], m.offered.snapshot));
      }
  }

  lemma StartLogs(h: History, id: int, peers: set<int>)
    requires h == History(h.cluster, map[0 := [DUMMY]], map[], map[], {}, {}, {})
    ensures NodeLogs(h, Start(id, peers))
  {
    assert Anchored(h, [DUMMY], 0);
  }

  lemma InitLogs(cluster: set<int>, cap: nat)
    requires NONE !in cluster
    ensures LogsInv(Init(cluster, cap))
  {
    VotesInRuns(cluster, cap, []);
    var s := Init(cluster, cap);
    assert Anchored(s.h, [DUMMY], 0);
    forall i | i in s.nodes ensures NodeLogs(s.h, s.nodes[i]) {
      assert s.nodes[i] == Start(i, cluster - {i});
      StartLogs(s.h, i, cluster - {i});
    }
  }

  lemma {:induction false} LogsInRuns(cluster: set<int>, cap: nat, actions: seq<Action>)
    requires NONE !in cluster && CarefulRun(cluster, cap, actions)
    ensures LogsInv(Run(cluster, cap, actions))
  {
    if actions == [] {
      InitLogs(cluster, cap);
    } else {
      LogsInRuns(cluster, cap, actions[..|actions| - 1]);
      ShapeInRuns(cluster, cap, actions[..|actions| - 1]);
      StepKeepsLogs(Run(cluster, cap, actions[..|actions| - 1]), actions[|actions| - 1]);
    }
  }

  // ----- the history only grows

  lemma SameIsLater(h: History, k: History)
    requires k.cluster == h.cluster && k.wins == h.wins && k.logs == h.logs && h.acks <= k.acks
    ensures Later(h, k)
  {
  }

  lemma VoteRespGrows(s: System, n: Node, m: Msg)
    requires ShapeInv(s) && n.id in s.nodes && n == s.nodes[n.id] && m in s.msgs && m.VoteResp? && m.to == n.id
    ensures Later(s.h, OnVoteResp(s, n, m.from, m.asked, m.voteReply).h)
  {
    Parts(s, n);
    MsgParts(s, m);
    var n1 := HandleVoteReply(n, m.from, m.asked, m.voteReply);
    if n.role == Candidate && n1.role == Leader {
      WonElection(s.h, n, m.from, m.asked, m.voteReply);
      WinShape(s.h, n, n1.granted);
    } else {
      SameIsLater(s.h, s.h);
    }
  }

  /** A message other than a vote changes neither wins nor logs. */
  lemma OthersWriteNothing(s: System, n: Node, m: Msg)
    requires !m.VoteResp?
    ensures var k := OnDeliver(s, n, m).h;
            k.cluster == s.h.cluster && k.wins == s.h.wins && k.logs == s.h.logs && s.h.acks <= k.acks
  {
  }

  lemma DeliverGrows(s: System, n: Node, m: Msg)
    requires ShapeInv(s) && n.id in s.nodes && n == s.nodes[n.id] && m in s.msgs && m.to == n.id
    ensures Later(s.h, OnDeliver(s, n, m).h)
  {
    if m.VoteResp? {
      VoteRespGrows(s, n, m);
    } else {
      OthersWriteNothing(s, n, m);
      SameIsLater(s.h, OnDeliver(s, n, m).h);
    }
  }

  lemma TimeoutGrows(s: System, n: Node)
    ensures Later(s.h, OnTimeout(s, n).h)
  {
    SameIsLater(s.h, OnTimeout(s, n).h);
  }

  lemma ProposeGrows(s: System, n: Node, data: string)
    requires ShapeInv(s) && n.id in s.nodes && n == s.nodes[n.id]
    ensures Later(s.h, OnPropose(s, n, data).h)
  {
    Parts(s, n);
    if n.role == Leader {
      EntryShape(s.h, n, Entry(n.currentTerm, data));
    } else {
      SameIsLater(s.h, s.h);
    }
  }

  lemma StepGrows(s: System, a: Action)
    requires ShapeInv(s)
    ensures Later(s.h, Do(s, a).h)
  {
    SameIsLater(s.h, s.h);
    match a
    case Timeout(i) => if i in s.nodes { TimeoutGrows(s, s.nodes[i]); }
    case Deliver(m) => if m in s.msgs && m.to in s.nodes { DeliverGrows(s, s.nodes[m.to], m); }
    case ClientPropose(i, data) => if i in s.nodes { ProposeGrows(s, s.nodes[i], data); }
    case _ => assert Do(s, a).h == s.h;
  }

  lemma OneMore(cluster: set<int>, cap: nat, actions: seq<Action>, a: Action)
    requires NONE !in cluster
    ensures Later(Run(cluster, cap, actions).h, Run(cluster, cap, actions + [a]).h)
  {
    assert (actions + [a])[..|actions|] == actions;
    ShapeInRuns(cluster, cap, actions);
    StepGrows(Run(cluster, cap, actions), a);
  }

  lemma {:induction false} RunsGrow(cluster: set<int>, cap: nat, actions: seq<Action>, more: seq<Action>)
    requires NONE !in cluster
    ensures Later(Run(cluster, cap, actions).h, Run(cluster, cap, actions + more).h)
  {
    if more == [] {
      assert actions + more == actions;
      SameIsLater(Run(cluster, cap, actions).h, Run(cluster, cap, actions).h);
    } else {
      var init, last := more[..|more| - 1], more[|more| - 1];
      assert actions + more == actions + init + [last];
      RunsGrow(cluster, cap, actions, init);
      OneMore(cluster, cap, actions + init, last);
      LaterStill(Run(cluster, cap, actions).h, Run(cluster, cap, actions + init).h,
                 Run(cluster, cap, actions + init + [last]).h);
    }
  }

  lemma {:induction false} CarefulSoFar(cluster: set<int>, cap: nat, actions: seq<Action>, more: seq<Action>)
    requires CarefulRun(cluster, cap, actions + more)
    ensures CarefulRun(cluster, cap, actions)
  {
    if more == [] {
      assert actions + more == actions;
    } else {
      assert (actions + more)[..|actions + more| - 1] == actions + more[..|more| - 1];
      CarefulSoFar(cluster, cap, actions, more[..|more| - 1]);
    }
  }

  // ----- what holds of all runs

  /** Log matching: an entry with the same index and term in two logs has the same past. */
  lemma LogMatchingInRuns(cluster: set<int>, cap: nat, actions: seq<Action>, s: System, i: int, j: int, index: int)
    requires NONE !in cluster && s == Run(cluster, cap, actions)
    requires i in s.nodes && j in s.nodes && 0 <= index < |s.nodes[i].log.full| && index < |s.nodes[j].log.full|
    requires s.nodes[i].log.full[index].term == s.nodes[j].log.full[index].term
    ensures s.nodes[i].log.full[..index + 1] == s.nodes[j].log.full[..index + 1]
  {
    ShapeInRuns(cluster, cap, actions);
    Parts(s, s.nodes[i]);
    Parts(s, s.nodes[j]);
    LogMatching(s.h, s.nodes[i].log.full, s.nodes[j].log.full, index);
  }

  /** A leader never drops an entry of its own log: two moments of the same leadership. */
  lemma LeaderAppendOnly(cluster: set<int>, cap: nat, actions: seq<Action>, more: seq<Action>,
                         s: System, u: System, i: int)
    requires NONE !in cluster && s == Run(cluster, cap, actions) && u == Run(cluster, cap, actions + more)
    requires i in s.nodes && i in u.nodes && s.nodes[i].role == Leader && u.nodes[i].role == Leader
    requires s.nodes[i].currentTerm == u.nodes[i].currentTerm
    ensures s.nodes[i].log.full <= u.nodes[i].log.full
  {
    RunsGrow(cluster, cap, actions, more);
    ShapeInRuns(cluster, cap, actions);
    ShapeInRuns(cluster, cap, actions + more);
    Parts(s, s.nodes[i]);
    Parts(u, u.nodes[i]);
    assert Agree(s.nodes[i].log.full, u.nodes[i].log.full, |s.nodes[i].log.full|);
  }

  /** What a crash leaves is the beginning of the log, and all that is lost are entries of the node's own
      leadership; a node that does not lead loses nothing.  So what was committed is kept exactly
      when the persisted part is long enough. */
  lemma CrashKeepsCommittedIff(cluster: set<int>, cap: nat, actions: seq<Action>, s: System, i: int)
    requires NONE !in cluster && s == Run(cluster, cap, actions) && i in s.nodes
    ensures var n, r := s.nodes[i], Restart(s.nodes[i]);
      && r.log.full <= n.log.full
      && (forall k {:trigger n.log.full[k]} :: |r.log.full| <= k < |n.log.full| ==> n.log.full[k].term == n.currentTerm)
      && (n.role != Leader ==> r.log.full == n.log.full)
      && (Agree(r.log.full, n.log.full, n.log.committed + 1) <==> CommittedPersisted(n))
  {
    ShapeInRuns(cluster, cap, actions);
    Parts(s, s.nodes[i]);
    var n := s.nodes[i];
    assert forall k :: 0 <= k < |n.hard.full| ==> n.hard.full[k] == n.log.full[k];
  }

  // ----- what holds of careful runs

  lemma TwoSafePrefixesAgree(h: History, x: seq<Entry>, n: int, b: int, y: seq<Entry>, m: int, c: int)
    requires HistoryOK(h) && x != [] && y != [] && x[0] == y[0] && Safe(h, x, n, b) && Safe(h, y, m, c)
    ensures Agree(x, y, Min(n, m))
  {
    if n > 1 && m > 1 {
      var t, k :| SafeBy(h, x, n, b, t, k);
      var u, l :| SafeBy(h, y, m, c, u, l);
      if t < u { LeaderCompleteness(h, t, k, u); }
      if u < t { LeaderCompleteness(h, u, l, t); }
    }
  }

  ghost predicate Committed(h: History, n: Node) {
    && n.log.full != [] && n.log.full[0] == DUMMY && n.log.committed < |n.log.full|
    && Safe(h, n.log.full, n.log.committed + 1, n.currentTerm)
  }

  lemma CommittedIsSafe(s: System, i: int)
    requires LogsInv(s) && i in s.nodes
    ensures HistoryOK(s.h) && Committed(s.h, s.nodes[i])
  {
    NodeParts(s, s.nodes[i]);
  }

  lemma CommittedAgree(h: History, k: History, m: Node, n: Node)
    requires Later(h, k) && HistoryOK(k) && Committed(h, m) && Committed(k, n)
    ensures Agree(m.log.full, n.log.full, Min(m.log.committed, n.log.committed) + 1)
  {
    SafeStays(h, k, m.log.full, m.log.committed + 1, m.currentTerm);
    TwoSafePrefixesAgree(k, m.log.full, m.log.committed + 1, m.currentTerm,
                         n.log.full, n.log.committed + 1, n.currentTerm);
  }

  lemma CommittedInLeader(h: History, k: History, m: Node, u: int)
    requires Later(h, k) && HistoryOK(k) && Committed(h, m) && m.currentTerm <= u && u in k.logs
    ensures Agree(m.log.full, k.logs[u], m.log.committed + 1)
  {
    SafeStays(h, k, m.log.full, m.log.committed + 1, m.currentTerm);
    SafeBelowLeader(k, m.log.full, m.log.committed + 1, m.currentTerm, u);
  }

  /** State machine safety, across time: whatever node i has committed at some moment of a run
      is what any node j that has committed that far holds at any later moment. */
  lemma StateMachineSafety(cluster: set<int>, cap: nat, actions: seq<Action>, more: seq<Action>,
                           s: System, u: System, i: int, j: int)
    requires NONE !in cluster && CarefulRun(cluster, cap, actions + more)
    requires s == Run(cluster, cap, actions) && u == Run(cluster, cap, actions + more)
    requires i in s.nodes && j in u.nodes
    ensures Agree(s.nodes[i].log.full, u.nodes[j].log.full,
                  Min(s.nodes[i].log.committed, u.nodes[j].log.committed) + 1)
  {
    var m, n := s.nodes[i], u.nodes[j];
    assert Later(s.h, u.h) by { RunsGrow(cluster, cap, actions, more); }
    assert Committed(s.h, m) by {
      CarefulSoFar(cluster, cap, actions, more);
      LogsInRuns(cluster, cap, actions);
      CommittedIsSafe(s, i);
    }
    assert HistoryOK(u.h) && Committed(u.h, n) by {
      LogsInRuns(cluster, cap, actions + more);
      CommittedIsSafe(u, j);
    }
    CommittedAgree(s.h, u.h, m, n);
  }

  /** Leader completeness: whatever any node has committed, in a term up to the leader's, at this or
      an earlier moment of the run, is in the leader's log. */
  lemma LeaderHasCommitted(cluster: set<int>, cap: nat, actions: seq<Action>, more: seq<Action>,
                           s: System, u: System, i: int, leader: int)
    requires NONE !in cluster && CarefulRun(cluster, cap, actions + more)
    requires s == Run(cluster, cap, actions) && u == Run(cluster, cap, actions + more)
    requires i in s.nodes && leader in u.nodes && u.nodes[leader].role == Leader
    requires s.nodes[i].currentTerm <= u.nodes[leader].currentTerm
    ensures Agree(s.nodes[i].log.full, u.nodes[leader].log.full, s.nodes[i].log.committed + 1)
  {
    assert Later(s.h, u.h) by { RunsGrow(cluster, cap, actions, more); }
    assert Committed(s.h, s.nodes[i]) by {
      CarefulSoFar(cluster, cap, actions, more);
      LogsInRuns(cluster, cap, actions);
      CommittedIsSafe(s, i);
    }
    LogsInRuns(cluster, cap, actions + more);
    NodeParts(u, u.nodes[leader]);
    CommittedInLeader(s.h, u.h, s.nodes[i], u.nodes[leader].currentTerm);
  }

  lemma SafeBelowLeader(h: History, x: seq<Entry>, n: int, bound: int, u: int)
    requires HistoryOK(h) && x != [] && x[0] == DUMMY && Safe(h, x, n, bound) && bound <= u && u in h.logs
    ensures Agree(x, h.logs[u], n)
  {
    assert LogOK(h, h.logs[u]);
    if n > 1 {
      var t, k :| SafeBy(h, x, n, bound, t, k);
      if t < u { LeaderCompleteness(h, t, k, u); }
    }
  }

  lemma KnowledgeOf(h: History, l: Node, n: Node)
    requires NodeVotes(h, l) && NodeLogs(h, l) && NodeLogs(h, n) && l.role == Leader
    requires n.id in l.peers && n.currentTerm == l.currentTerm
    ensures Agree(n.log.full, l.log.full, l.matchIndex[n.id] + 1) || Misled(h, n.id, l.currentTerm, l.matchIndex[n.id])
  {
    var t, m := l.currentTerm, l.matchIndex[n.id];
    assert MatchOK(h, n.id, t, m);
    if Acked(h, n.id, t, m) { assert Kept(h, n.log.full, t, m, t); }
  }

  /** What a leader believes of a peer that is still in its term is true, except of a peer that
      compacted a snapshot over entries it knew to differ. */
  lemma LeaderKnowledge(cluster: set<int>, cap: nat, actions: seq<Action>, s: System, leader: int, p: int)
    requires NONE !in cluster && CarefulRun(cluster, cap, actions) && s == Run(cluster, cap, actions)
    requires leader in s.nodes && p in s.nodes && p != leader && s.nodes[leader].role == Leader
    requires s.nodes[p].currentTerm == s.nodes[leader].currentTerm
    ensures var l := s.nodes[leader];
            p in l.matchIndex &&
            (Agree(s.nodes[p].log.full, l.log.full, l.matchIndex[p] + 1) ||
             Misled(s.h, p, l.currentTerm, l.matchIndex[p]))
  {
    LogsInRuns(cluster, cap, actions);
    NodeParts(s, s.nodes[p]);
    NodeParts(s, s.nodes[leader]);
    KnowledgeOf(s.h, s.nodes[leader], s.nodes[p]);
  }

  /** No message can make a node exit: an entry it has committed is never contradicted. */
  lemma NoNodeExits(cluster: set<int>, cap: nat, actions: seq<Action>, s: System, m: Msg)
    requires NONE !in cluster && CarefulRun(cluster, cap, actions) && s == Run(cluster, cap, actions)
    requires m in s.msgs && m.AppendReq? && m.to in s.nodes
    ensures HandleAppendEntries(s.nodes[m.to], m.append).Done?
  {
    LogsInRuns(cluster, cap, actions);
    NodeParts(s, s.nodes[m.to]);
    AppendReqParts(s, m);
    AppendNeverExits(s.h, s.nodes[m.to], m.append);
  }
}
