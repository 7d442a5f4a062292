/** The whole cluster: nodes, the messages ever sent, and the history.

    A message stays in `msgs` for good: it may be delivered never, late, repeatedly, and in
    any order.  A run is a sequence of actions; an action that is not enabled changes nothing.
*/
module RaftSystem {
  import opened RaftLogSpec
  import opened RaftProtocol
  import opened RaftHistory

  /** Replies carry what the waiting coroutine knows: whom it asked, and for votes and
      snapshots the request.  `branch` is for the history only. */
  datatype Msg =
    | VoteReq(to: int, vote: VoteArgs)
    | VoteResp(to: int, from: int, asked: VoteArgs, voteReply: VoteReply)
    | AppendReq(to: int, append: AppendArgs)
    | AppendResp(to: int, from: int, appendReply: AppendReply)
    | InstallReq(to: int, install: InstallArgs)
    | InstallResp(to: int, from: int, offered: InstallArgs, installReply: InstallReply, branch: Branch)

  datatype System = System(nodes: map<int, Node>, msgs: set<Msg>, h: History, cap: nat)

  datatype Action =
    | Timeout(node: int)
    | Deliver(msg: Msg)
    | ClientPropose(node: int, data: string)
    | ReplicateTo(node: int, peer: int)
    | SnapshotAt(node: int, index: nat)
    | SaveInstalled(msg: Msg)
    | MarkApplied(node: int, index: nat)
    | Crash(node: int)

  function Update(s: System, n: Node, sent: set<Msg>, h: History): System {
    s.(nodes := s.nodes[n.id := n], msgs := s.msgs + sent, h := h)
  }

  // ----- what a step adds to the history

  function WithBallot(h: History, b: Ballot): History {
    h.(ballots := h.ballots + {b})
  }

  function WithCampaign(h: History, term: int, id: int, log: seq<Entry>): History {
    WithBallot(h, Ballot(term, id, id)).(campaigns := h.campaigns[(term, id) := log])
  }

  function WithWin(h: History, t: int, w: Win, log: seq<Entry>): History {
    h.(wins := h.wins[t := w], logs := h.logs[t := log])
  }

  function WithAck(h: History, a: Ack): History {
    h.(acks := h.acks + {a})
  }

  function WithMisled(h: History, a: Ack): History {
    h.(misled := h.misled + {a})
  }

  function AfterVote(h: History, id: int, request: VoteArgs, reply: VoteReply): History {
    if reply.voteGranted then WithBallot(h, Ballot(request.term, id, request.candidateId)) else h
  }

  function AfterAppend(h: History, id: int, reply: AppendReply): History {
    if reply.success then WithAck(h, Ack(reply.term, id, reply.nextIndex - 1)) else h
  }

  /** What a leader commits it answers for itself, too. */
  function AfterCommit(h: History, n: Node, n1: Node): History {
    if n1.log.committed > n.log.committed then WithAck(h, Ack(n.currentTerm, n.id, n1.log.committed)) else h
  }

  function AfterInstall(h: History, id: int, m: InstallArgs, branch: Branch): History {
    var a := Ack(m.term, id, m.snapshot.index);
    if branch.Ignored? || branch.FastForwarded? || branch.Cleared? then WithAck(h, a)
    else if branch.Compacted? then WithMisled(h, a)
    else h
  }

  // ----- the steps

  function OnTimeout(s: System, n: Node): System {
    if n.role == Leader then s
    else
      var (n1, request) := ElectionTimeout(n);
      Update(s, n1, set p | p in n.peers :: VoteReq(p, request), WithCampaign(s.h, n.currentTerm + 1, n.id, n.log.full))
  }

  function OnVoteReq(s: System, n: Node, request: VoteArgs): System {
    var (n1, reply) := HandleRequestVote(n, request);
    Update(s, n1, {VoteResp(request.candidateId, n.id, request, reply)}, AfterVote(s.h, n.id, request, reply))
  }

  function OnVoteResp(s: System, n: Node, from: int, asked: VoteArgs, reply: VoteReply): System {
    var n1 := HandleVoteReply(n, from, asked, reply);
    Update(s, n1, {},
           if n.role != Leader && n1.role == Leader
           then WithWin(s.h, n.currentTerm, Win(n.id, n1.granted), n.log.full)
           else s.h)
  }

  function OnAppendReq(s: System, n: Node, request: AppendArgs): System {
    match HandleAppendEntries(n, request)
    case Halt => s
    case Done(n1, reply) => Update(s, n1, {AppendResp(request.leaderId, n.id, reply)}, AfterAppend(s.h, n.id, reply))
  }

  function OnInstallReq(s: System, n: Node, request: InstallArgs): System {
    var (n1, reply, branch) := HandleInstallSnapshot(n, request);
    Update(s, n1, {InstallResp(request.leaderId, n.id, request, reply, branch)},
           AfterInstall(s.h, n.id, request, branch))
  }

  function OnPropose(s: System, n: Node, data: string): System {
    var (n1, accepted) := Propose(n, data);
    Update(s, n1, {}, if accepted then s.h.(logs := s.h.logs[n.currentTerm := n1.log.full]) else s.h)
  }

  function OnAppendResp(s: System, n: Node, from: int, reply: AppendReply): System
    requires from in n.nextIndex && from in n.matchIndex
  {
    var n1 := HandleAppendReply(n, from, reply);
    Update(s, n1, {}, AfterCommit(s.h, n, n1))
  }

  function OnReplicate(s: System, n: Node, peer: int): System
    requires peer in n.nextIndex
  {
    match Replicate(n, peer, s.cap)
    case Nothing => s
    case SendAppend(request) => s.(msgs := s.msgs + {AppendReq(peer, request)})
    case SendInstall(request) => s.(msgs := s.msgs + {InstallReq(peer, request)})
  }

  function OnDeliver(s: System, n: Node, m: Msg): System {
    match m
    case VoteReq(_, request) => OnVoteReq(s, n, request)
    case VoteResp(_, from, asked, reply) => OnVoteResp(s, n, from, asked, reply)
    case AppendReq(_, request) => OnAppendReq(s, n, request)
    case AppendResp(_, from, reply) =>
      if from in n.nextIndex && from in n.matchIndex then OnAppendResp(s, n, from, reply) else s
    case InstallReq(_, request) => OnInstallReq(s, n, request)
    case InstallResp(_, from, offered, reply, _) =>
      if from in n.nextIndex && from in n.matchIndex
      then Update(s, HandleInstallReply(n, from, offered, reply), {}, s.h) else s
  }

  function Do(s: System, a: Action): System {
    match a
    case Timeout(i) => if i in s.nodes then OnTimeout(s, s.nodes[i]) else s
    case Deliver(m) => if m in s.msgs && m.to in s.nodes then OnDeliver(s, s.nodes[m.to], m) else s
    case ClientPropose(i, data) => if i in s.nodes then OnPropose(s, s.nodes[i], data) else s
    case ReplicateTo(i, p) =>
      if i in s.nodes && p in s.nodes[i].nextIndex then OnReplicate(s, s.nodes[i], p) else s
    case SnapshotAt(i, index) =>
      if i in s.nodes then Update(s, TakeSnapshot(s.nodes[i], index), {}, s.h) else s
    case SaveInstalled(m) =>
      if m in s.msgs && m.InstallResp? && (m.branch.Cleared? || m.branch.Compacted?) && m.from in s.nodes
      then Update(s, PersistSnapshot(s.nodes[m.from], m.offered.snapshot), {}, s.h) else s
    case MarkApplied(i, index) =>
      if i in s.nodes
      then Update(s, s.nodes[i].(log := s.nodes[i].log.AppliedTo(index)), {}, s.h) else s
    case Crash(i) => if i in s.nodes then Update(s, Restart(s.nodes[i]), {}, s.h) else s
  }

  function Init(cluster: set<int>, cap: nat): System {
    System(map i | i in cluster :: Start(i, cluster - {i}), {},
           History(cluster, map[0 := [DUMMY]], map[], map[], {}, {}, {}), cap)
  }

  function Run(cluster: set<int>, cap: nat, actions: seq<Action>): System {
    if actions == [] then Init(cluster, cap)
    else Do(Run(cluster, cap, actions[..|actions| - 1]), actions[|actions| - 1])
  }
}
