/** One Raft node and its message handlers, as functions on values.

    Every function below is one lock-held region of `RaftNode`.  `RaftNodeClass` holds the
    same handlers as methods that update fields, each proved equal to the function here.
*/
module RaftProtocol {
  import opened Options
  import opened RaftLogSpec

  /** "No vote" and "no known leader". */
  const NONE: int := -1

  datatype Role = Follower | Candidate | Leader

  /** What `persist` has written: the hard state and the entries. */
  datatype Hard = Hard(term: int, vote: int, commit: nat, full: seq<Entry>, base: nat)

  /** `granted` holds the nodes whose votes `startElection` has counted, itself included. */
  datatype Node = Node(
    id: int, peers: set<int>, role: Role, leaderId: int, currentTerm: int, votedFor: int,
    log: Log, nextIndex: map<int, int>, matchIndex: map<int, int>, granted: set<int>,
    hard: Hard, snapshot: Option<Snapshot>)

  datatype VoteArgs = VoteArgs(term: int, candidateId: int, lastLogIndex: int, lastLogTerm: int)
  datatype VoteReply = VoteReply(term: int, leaderId: int, voteGranted: bool)

  datatype AppendArgs = AppendArgs(term: int, leaderId: int, prevLogIndex: int, prevLogTerm: int,
                                   entries: seq<Entry>, leaderCommit: int)
  datatype AppendReply = AppendReply(success: bool, term: int, leaderId: int, nextIndex: int)

  datatype InstallArgs = InstallArgs(term: int, leaderId: int, snapshot: Snapshot)
  datatype InstallReply = InstallReply(term: int, leaderId: int)

  /** Which way `handleInstallSnapshot` went. */
  datatype Branch = Stale | Ignored | FastForwarded | Cleared | Compacted

  /** A handler's end: the process exits, or the node moves on and answers. */
  datatype Outcome<+R> = Halt | Done(node: Node, reply: R)

  function Majority(voters: int, n: Node): bool {
    voters > (|n.peers| + 1) / 2
  }

  function Persist(n: Node): Node {
    n.(hard := Hard(n.currentTerm, n.votedFor, n.log.committed, n.log.full, n.log.base))
  }

  function PersistWith(n: Node, snap: Snapshot): Node {
    Persist(n).(snapshot := Some(snap))
  }

  function BecomeFollower(n: Node, term: int, leaderId: int): Node {
    Persist(n.(role := Follower, currentTerm := term, votedFor := NONE, leaderId := leaderId))
  }

  function BecomeCandidate(n: Node): Node {
    Persist(n.(role := Candidate, currentTerm := n.currentTerm + 1, votedFor := n.id, leaderId := NONE))
  }

  function BecomeLeader(n: Node): Node {
    Persist(n.(role := Leader, leaderId := n.id,
               nextIndex := map p | p in n.peers :: n.log.LastIndex() + 1,
               matchIndex := map p | p in n.peers :: 0))
  }

  function StartElection(n: Node): (Node, VoteArgs) {
    (Persist(n.(votedFor := n.id, granted := {n.id})),
     VoteArgs(n.currentTerm, n.id, n.log.LastIndex(), n.log.LastTerm()))
  }

  /** The election timer of a node that is not the leader. */
  function ElectionTimeout(n: Node): (Node, VoteArgs) {
    StartElection(BecomeCandidate(n))
  }

  function HandleVoteReply(n: Node, peer: int, request: VoteArgs, reply: VoteReply): Node {
    if n.currentTerm != request.term || n.role != Candidate then n
    else if reply.voteGranted then
      var n1 := n.(granted := n.granted + {peer});
      if Majority(|n1.granted|, n1) then BecomeLeader(n1) else n1
    else if reply.term > n.currentTerm then BecomeFollower(n, reply.term, reply.leaderId)
    else n
  }

  function HandleRequestVote(n: Node, request: VoteArgs): (Node, VoteReply) {
    if request.term < n.currentTerm ||
       (request.term == n.currentTerm && n.votedFor != NONE && n.votedFor != request.candidateId)
    then (Persist(n), VoteReply(n.currentTerm, n.leaderId, false))
    else
      var n1 := if request.term > n.currentTerm then BecomeFollower(n, request.term, NONE) else n;
      if !n1.log.IsUpToDate(request.lastLogIndex, request.lastLogTerm)
      then (Persist(n1), VoteReply(n1.currentTerm, n1.leaderId, false))
      else (Persist(n1.(votedFor := request.candidateId)), VoteReply(n1.currentTerm, n1.leaderId, true))
  }

  /** The part of `handleAppendEntries` before the log is touched: the term rules and the
      known leader. */
  function FollowLeader(n: Node, request: AppendArgs): Node {
    var n1 := if request.term > n.currentTerm || (request.term == n.currentTerm && n.role == Candidate)
              then BecomeFollower(n, request.term, request.leaderId) else n;
    if n1.leaderId < 0 then n1.(leaderId := request.leaderId) else n1
  }

  /** The deferred block of `handleAppendEntries` on success, with its bound `lastIndex()`. */
  function DeferredCommit(log: Log, leaderCommit: int): Log {
    if log.committed < leaderCommit then log.CommitTo(Min(leaderCommit, log.LastIndex())) else log
  }

  /** The part of `handleAppendEntries` in which it is. */
  function TakeEntries(n1: Node, request: AppendArgs): Outcome<AppendReply> {
    if request.prevLogIndex < n1.log.base
    then Done(Persist(n1), AppendReply(false, 0, NONE, 0))
    else
      match n1.log.MaybeAppend(request.prevLogIndex, request.prevLogTerm, request.leaderCommit, request.entries)
      case Fatal => Halt
      case NoMatch =>
        Done(Persist(n1), AppendReply(false, n1.currentTerm, n1.leaderId, n1.log.ConflictHint(request.prevLogIndex)))
      case Appended(log, last) =>
        Done(Persist(n1.(log := DeferredCommit(log, request.leaderCommit))),
             AppendReply(true, n1.currentTerm, n1.leaderId, last + 1))
  }

  function HandleAppendEntries(n: Node, request: AppendArgs): Outcome<AppendReply> {
    if request.term < n.currentTerm
    then Done(Persist(n), AppendReply(false, n.currentTerm, n.leaderId, 0))
    else TakeEntries(FollowLeader(n, request), request)
  }

  /** The peers of `n` known to hold index `i`. */
  function Holders(n: Node, i: int): set<int> {
    set p | p in n.peers && p in n.matchIndex && n.matchIndex[p] >= i
  }

  /** The counting loop at the end of `replicateOneRound`. */
  function CommitRound(n: Node, i: int): Node {
    if Majority(1 + |Holders(n, i)|, n) then n.(log := n.log.MaybeCommit(i, n.currentTerm)) else n
  }

  /** The peer has taken all entries before `next`. */
  function Advance(n: Node, peer: int, next: int): Node
    requires peer in n.nextIndex && peer in n.matchIndex
  {
    var n1 := if next > n.nextIndex[peer]
              then n.(nextIndex := n.nextIndex[peer := next], matchIndex := n.matchIndex[peer := next - 1])
              else n;
    CommitRound(n1, n1.matchIndex[peer])
  }

  function HandleAppendReply(n: Node, peer: int, reply: AppendReply): Node
    requires peer in n.nextIndex && peer in n.matchIndex
  {
    if n.role != Leader then n
    else if reply.term > n.currentTerm then BecomeFollower(n, reply.term, reply.leaderId)
    else if reply.term < n.currentTerm then n
    else if !reply.success then
      if reply.nextIndex == 0 then n
      else n.(nextIndex := n.nextIndex[peer := reply.nextIndex],
              matchIndex := n.matchIndex[peer := Min(n.matchIndex[peer], reply.nextIndex - 1)])
    else Advance(n, peer, reply.nextIndex)
  }

  /** The part of `handleInstallSnapshot` after the term rules. */
  function InstallSnapshot(n1: Node, snap: Snapshot): (Node, Branch) {
    if snap.index <= n1.log.committed then (n1, Ignored)
    else if n1.log.MatchLog(snap.index, snap.term) then (n1.(log := n1.log.CommitTo(snap.index)), FastForwarded)
    else if snap.index > n1.log.LastIndex()
    then (PersistWith(n1.(log := n1.log.Clear(snap)), snap), Cleared)
    else (PersistWith(n1.(log := n1.log.Compact(snap.index)), snap), Compacted)
  }

  function HandleInstallSnapshot(n: Node, request: InstallArgs): (Node, InstallReply, Branch) {
    var snap := request.snapshot;
    if request.term < n.currentTerm then (n, InstallReply(n.currentTerm, n.leaderId), Stale)
    else
      var n1 := if request.term > n.currentTerm then BecomeFollower(n, request.term, request.leaderId) else n;
      var (n2, branch) := InstallSnapshot(n1, snap);
      (n2, InstallReply(n.currentTerm, n1.leaderId), branch)
  }

  function HandleInstallReply(n: Node, peer: int, request: InstallArgs, reply: InstallReply): Node
    requires peer in n.nextIndex && peer in n.matchIndex
  {
    var index := request.snapshot.index;
    if n.currentTerm != request.term || n.role != Leader then n
    else if reply.term > n.currentTerm then BecomeFollower(n, reply.term, reply.leaderId)
    else
      n.(matchIndex := if index > n.matchIndex[peer] then n.matchIndex[peer := index] else n.matchIndex,
         nextIndex := if index > n.nextIndex[peer] then n.nextIndex[peer := index + 1] else n.nextIndex)
  }

  datatype Outgoing = Nothing | SendAppend(append: AppendArgs) | SendInstall(install: InstallArgs)

  /** The sending half of `replicateOneRound`; `cap` is `m_maxNextEntriesSize`. */
  function Replicate(n: Node, peer: int, cap: nat): Outgoing
    requires peer in n.nextIndex
  {
    if n.role != Leader then Nothing
    else
      var prev := n.nextIndex[peer] - 1;
      if prev < n.log.base then
        if n.snapshot.None? then Nothing else SendInstall(InstallArgs(n.currentTerm, n.id, n.snapshot.value))
      else
        SendAppend(AppendArgs(n.currentTerm, n.id, prev, n.log.Term(prev),
                              n.log.Suffix(n.nextIndex[peer], cap), n.log.committed))
  }

  function Propose(n: Node, data: string): (Node, bool) {
    if n.role != Leader then (n, false)
    else (n.(log := n.log.(full := n.log.full + [Entry(n.currentTerm, data)])), true)
  }

  /** `persistStateAndSnapshot`. */
  function TakeSnapshot(n: Node, index: nat): Node {
    if !n.log.CanSnapshot(index) then n
    else PersistWith(n.(log := n.log.Compact(index)),
                     Snapshot(index, n.log.Term(index), n.log.full[..index + 1]))
  }

  /** `persistSnapshot`. */
  function PersistSnapshot(n: Node, snap: Snapshot): Node {
    PersistWith(n.(log := n.log.Compact(snap.index)), snap)
  }

  /** A crash followed by a start from what was persisted. */
  function Restart(n: Node): Node {
    Node(n.id, n.peers, Follower, NONE, n.hard.term, n.hard.vote,
         Log(n.hard.full, n.hard.base, n.hard.commit, n.hard.base),
         map p | p in n.peers :: 0, map p | p in n.peers :: 0, {}, n.hard, n.snapshot)
  }

  /** A first start, with nothing persisted. */
  function Start(id: int, peers: set<int>): Node {
    BecomeFollower(
      Node(id, peers, Follower, NONE, 0, NONE, Log([DUMMY], 0, 0, 0),
           map p | p in peers :: 0, map p | p in peers :: 0, {},
           Hard(0, NONE, 0, [DUMMY], 0), None), 0, NONE)
  }
}
