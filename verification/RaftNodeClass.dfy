/** `RaftNode` as it is: fields that the handlers update under the node's lock, a `RaftLog`
    that forgets what it has compacted, and what `persist` has written.  Each method is
    proved to do to `Abs()` what the handler of the same name in `RaftProtocol` says, so
    the theorems about runs of that protocol are about these methods.
*/
module RaftNodeClass {
  import opened Endings
  import opened Options
  import opened Sequences
  import opened RaftLogSpec
  import opened RaftLogClass
  import P = RaftProtocol

  /** `AppendEntriesArgs`, whose entries carry their indices. */
  datatype AppendRequest = AppendRequest(term: int, leaderId: int, prevLogIndex: int, prevLogTerm: int,
                                         entries: seq<Indexed>, leaderCommit: int)
  {
    function Bare(): P.AppendArgs {
      P.AppendArgs(term, leaderId, prevLogIndex, prevLogTerm, RaftLogClass.Bare(entries), leaderCommit)
    }
  }

  /** A stored snapshot: metadata and the bytes of the state. */
  datatype Saved = Saved(index: nat, term: int, data: string)

  datatype InstallRequest = InstallRequest(term: int, leaderId: int, snapshot: Saved)

  /** The stored snapshot is of the state after the commands of `snap.prefix`. */
  ghost predicate Stands(saved: Saved, snap: Snapshot) {
    && saved.index == snap.index && saved.term == snap.term
    && |snap.prefix| == snap.index + 1 && snap.prefix[snap.index].term == snap.term
  }

  ghost predicate BothStand(saved: Option<Saved>, snap: Option<Snapshot>) {
    saved.Some? == snap.Some? && (saved.Some? ==> Stands(saved.value, snap.value))
  }

  datatype Outgoing = Nothing | SendAppend(append: AppendRequest) | SendInstall(install: InstallRequest)

  function SetOf(s: seq<int>): set<int> {
    set p | p in s
  }

  lemma {:induction false} DistinctSize(s: seq<int>)
    requires Distinct(s)
    ensures |SetOf(s)| == |s|
  {
    if s != [] {
      var rest := s[..|s| - 1];
      DistinctSize(rest);
      assert SetOf(s) == SetOf(rest) + {s[|s| - 1]};
    }
  }

  /** The peers among `s` whose match index is at least `i`. */
  ghost function HoldersIn(s: seq<int>, matchIndex: map<int, int>, i: int): set<int> {
    set p | p in s && p in matchIndex && matchIndex[p] >= i
  }

  lemma HoldersStep(s: seq<int>, k: nat, matchIndex: map<int, int>, i: int)
    requires Distinct(s) && k < |s| && s[k] in matchIndex
    ensures |HoldersIn(s[..k + 1], matchIndex, i)| ==
            |HoldersIn(s[..k], matchIndex, i)| + (if matchIndex[s[k]] >= i then 1 else 0)
  {
    assert s[..k + 1] == s[..k] + [s[k]];
    assert HoldersIn(s[..k + 1], matchIndex, i) ==
           HoldersIn(s[..k], matchIndex, i) + (if matchIndex[s[k]] >= i then {s[k]} else {});
  }

  lemma MaybeCommitAgain(log: Log, i: int, t: int)
    ensures log.MaybeCommit(i, t).MaybeCommit(i, t) == log.MaybeCommit(i, t)
  {
  }

  class RaftNode {
    const id: int
    /** The keys of `m_peers`, in the order in which the map is walked. */
    const peers: seq<int>
    const log: RaftLog
    var role: P.Role
    var leaderId: int
    var currentTerm: int
    var votedFor: int
    var nextIndex: map<int, int>
    var matchIndex: map<int, int>
    var grantedVotes: int
    ghost var granted: set<int>
    /** The hard state and entries last written by `persist`, and the last snapshot. */
    var hardTerm: int
    var hardVote: int
    var hardCommit: nat
    var hardEntries: seq<Indexed>
    ghost var hardFull: seq<Entry>
    var saved: Option<Saved>
    ghost var snapshot: Option<Snapshot>

    ghost predicate Valid()
      reads this, log
    {
      && log.Valid()
      && Distinct(peers)
      && nextIndex.Keys == SetOf(peers) && matchIndex.Keys == SetOf(peers)
      && grantedVotes == |granted|
      && Retains(hardEntries, hardFull) && hardCommit < |hardFull|
      && BothStand(saved, snapshot)
    }

    ghost function Abs(): P.Node
      reads this, log
      requires Valid()
    {
      P.Node(id, SetOf(peers), role, leaderId, currentTerm, votedFor, log.Abs(), nextIndex, matchIndex, granted,
             P.Hard(hardTerm, hardVote, hardCommit, hardFull, hardEntries[0].index), snapshot)
    }

    /** A node that starts with nothing persisted. */
    constructor (id: int, peers: seq<int>, cap: nat)
      requires Distinct(peers)
      ensures Valid() && Abs() == P.Start(id, SetOf(peers)) && fresh(log)
    {
      this.id, this.peers := id, peers;
      log := new RaftLog(cap);
      role, leaderId, currentTerm, votedFor := P.Follower, P.NONE, 0, P.NONE;
      nextIndex := map p | p in SetOf(peers) :: 0;
      matchIndex := map p | p in SetOf(peers) :: 0;
      grantedVotes, granted := 0, {};
      hardTerm, hardVote, hardCommit := 0, P.NONE, 0;
      hardEntries, hardFull := [Indexed(0, 0, "")], [DUMMY];
      saved, snapshot := None, None;
    }

    /** A node that starts from what another life of it had persisted. */
    constructor Restarted(id: int, peers: seq<int>, cap: nat, hardTerm: int, hardVote: int, hardCommit: nat,
                          hardEntries: seq<Indexed>, ghost hardFull: seq<Entry>,
                          saved: Option<Saved>, ghost snapshot: Option<Snapshot>, ghost before: P.Node)
      requires Distinct(peers) && Retains(hardEntries, hardFull) && hardCommit < |hardFull|
      requires BothStand(saved, snapshot)
      requires before.id == id && before.peers == SetOf(peers) && before.snapshot == snapshot
      requires before.hard == P.Hard(hardTerm, hardVote, hardCommit, hardFull, hardEntries[0].index)
      ensures Valid() && Abs() == P.Restart(before) && fresh(log)
    {
      this.id, this.peers := id, peers;
      log := new RaftLog.Load(hardEntries, hardCommit, hardFull, cap);
      role, leaderId, currentTerm, votedFor := P.Follower, P.NONE, hardTerm, hardVote;
      nextIndex := map p | p in SetOf(peers) :: 0;
      matchIndex := map p | p in SetOf(peers) :: 0;
      grantedVotes, granted := 0, {};
      this.hardTerm, this.hardVote, this.hardCommit := hardTerm, hardVote, hardCommit;
      this.hardEntries, this.hardFull := hardEntries, hardFull;
      this.saved, this.snapshot := saved, snapshot;
    }

    method Persist()
      requires Valid()
      modifies `hardTerm, `hardVote, `hardCommit, `hardEntries, `hardFull
      ensures Valid() && Abs() == P.Persist(old(Abs()))
    {
      hardTerm, hardVote, hardCommit := currentTerm, votedFor, log.committed;
      hardEntries, hardFull := log.entries, log.full;
    }

    method PersistWith(s: Saved, ghost snap: Snapshot)
      requires Valid() && Stands(s, snap)
      modifies this
      ensures Valid() && Abs() == P.PersistWith(old(Abs()), snap)
    {
      Persist();
      saved, snapshot := Some(s), Some(snap);
    }

    method BecomeFollower(term: int, leader: int)
      requires Valid()
      modifies this
      ensures Valid() && Abs() == P.BecomeFollower(old(Abs()), term, leader)
    {
      role, currentTerm, votedFor, leaderId := P.Follower, term, P.NONE, leader;
      Persist();
    }

    method BecomeCandidate()
      requires Valid()
      modifies this
      ensures Valid() && Abs() == P.BecomeCandidate(old(Abs()))
    {
      role, currentTerm, votedFor, leaderId := P.Candidate, currentTerm + 1, id, P.NONE;
      Persist();
    }

    /** The loop of `becomeLeader` over the peers. */
    method ResetIndices(next: int)
      requires nextIndex.Keys == SetOf(peers) && matchIndex.Keys == SetOf(peers)
      modifies this`nextIndex, this`matchIndex
      ensures nextIndex == map p | p in SetOf(peers) :: next
      ensures matchIndex == map p | p in SetOf(peers) :: 0
    {
      var i := 0;
      while i < |peers|
        invariant 0 <= i <= |peers|
        invariant nextIndex.Keys == SetOf(peers) && matchIndex.Keys == SetOf(peers)
        invariant forall p :: p in peers[..i] ==> nextIndex[p] == next && matchIndex[p] == 0
      {
        nextIndex := nextIndex[peers[i] := next];
        matchIndex := matchIndex[peers[i] := 0];
        i := i + 1;
      }
      assert peers[..i] == peers;
      forall p | p in SetOf(peers) ensures nextIndex[p] == next && matchIndex[p] == 0 {
        assert p in peers[..i];
      }
      assert nextIndex.Keys == (map p | p in SetOf(peers) :: next).Keys;
      assert matchIndex.Keys == (map p | p in SetOf(peers) :: 0).Keys;
    }

    method BecomeLeader()
      requires Valid()
      modifies this
      ensures Valid() && Abs() == P.BecomeLeader(old(Abs()))
    {
      role, leaderId := P.Leader, id;
      assert Valid();
      ExpectNothing(log.LastIndex() + 1);
      Persist();
    }

    method ExpectNothing(next: int)
      requires Valid()
      modifies this`nextIndex, this`matchIndex
      ensures Valid()
      ensures Abs() == old(Abs()).(nextIndex := map p | p in SetOf(peers) :: next,
                                   matchIndex := map p | p in SetOf(peers) :: 0)
    {
      ResetIndices(next);
    }

    method StartElection() returns (request: P.VoteArgs)
      requires Valid()
      modifies this
      ensures Valid() && (Abs(), request) == P.StartElection(old(Abs()))
    {
      request := P.VoteArgs(currentTerm, id, log.LastIndex(), log.LastTerm());
      votedFor := id;
      Persist();
      grantedVotes, granted := 1, {id};
    }

    /** The election timer; a leader does nothing. */
    method ElectionTimeout() returns (request: Option<P.VoteArgs>)
      requires Valid()
      modifies this
      ensures Valid()
      ensures if old(role) == P.Leader then Abs() == old(Abs()) && request == None
              else request.Some? && (Abs(), request.value) == P.ElectionTimeout(old(Abs()))
    {
      request := None;
      if role != P.Leader {
        BecomeCandidate();
        var r := StartElection();
        request := Some(r);
      }
    }

    /** A peer's answer to this election.  Its coroutine runs once, so no peer is counted twice. */
    method HandleVoteReply(peer: int, request: P.VoteArgs, reply: P.VoteReply)
      requires Valid() && (currentTerm == request.term && role == P.Candidate ==> peer !in granted)
      modifies this
      ensures Valid() && Abs() == P.HandleVoteReply(old(Abs()), peer, request, reply)
    {
      if currentTerm == request.term && role == P.Candidate {
        if reply.voteGranted {
          grantedVotes, granted := grantedVotes + 1, granted + {peer};
          DistinctSize(peers);
          if grantedVotes > (|peers| + 1) / 2 {
            BecomeLeader();
          }
        } else if reply.term > currentTerm {
          BecomeFollower(reply.term, reply.leaderId);
        }
      }
    }

    method HandleRequestVote(request: P.VoteArgs) returns (reply: P.VoteReply)
      requires Valid()
      modifies this
      ensures Valid() && (Abs(), reply) == P.HandleRequestVote(old(Abs()), request)
    {
      if request.term < currentTerm ||
         (request.term == currentTerm && votedFor != P.NONE && votedFor != request.candidateId) {
        reply := P.VoteReply(currentTerm, leaderId, false);
        Persist();
        return;
      }
      if request.term > currentTerm {
        BecomeFollower(request.term, P.NONE);
      }
      if !log.IsUpToDate(request.lastLogIndex, request.lastLogTerm) {
        reply := P.VoteReply(currentTerm, leaderId, false);
        Persist();
        return;
      }
      votedFor := request.candidateId;
      reply := P.VoteReply(currentTerm, leaderId, true);
      Persist();
    }

    method FollowLeader(request: AppendRequest)
      requires Valid()
      modifies this
      ensures Valid() && Abs() == P.FollowLeader(old(Abs()), request.Bare())
    {
      if request.term > currentTerm || (request.term == currentTerm && role == P.Candidate) {
        BecomeFollower(request.term, request.leaderId);
      }
      if leaderId < 0 {
        leaderId := request.leaderId;
      }
    }

    method HandleAppendEntries(request: AppendRequest) returns (reply: P.AppendReply, ending: Ending)
      requires Valid() && Contiguous(request.entries, request.prevLogIndex + 1)
      modifies this, log
      ensures Valid()
      ensures match P.HandleAppendEntries(old(Abs()), request.Bare())
              case Halt => ending == Exited
              case Done(n, r) => ending == Returned && Abs() == n && reply == r
    {
      if request.term < currentTerm {
        reply, ending := P.AppendReply(false, currentTerm, leaderId, 0), Returned;
        Persist();
        return;
      }
      FollowLeader(request);
      reply, ending := TakeEntries(request);
    }

    method TakeEntries(request: AppendRequest) returns (reply: P.AppendReply, ending: Ending)
      requires Valid() && Contiguous(request.entries, request.prevLogIndex + 1)
      modifies this, log
      ensures Valid()
      ensures match P.TakeEntries(old(Abs()), request.Bare())
              case Halt => ending == Exited
              case Done(n, r) => ending == Returned && Abs() == n && reply == r
    {
      ending := Returned;
      reply := P.AppendReply(false, currentTerm, leaderId, 0);
      if request.prevLogIndex < log.LastSnapshotIndex() {
        reply := P.AppendReply(false, 0, P.NONE, 0);
        Persist();
        return;
      }
      var lastIndex;
      lastIndex, ending := log.MaybeAppend(request.prevLogIndex, request.prevLogTerm, request.leaderCommit,
          request.entries);
      if ending == Exited {
        return;
      }
      if lastIndex < 0 {
        var conflict := log.FindConflictHint(request.prevLogIndex);
        reply := P.AppendReply(false, currentTerm, leaderId, conflict);
        Persist();
        return;
      }
      reply := P.AppendReply(true, currentTerm, leaderId, lastIndex + 1);
      if log.committed < request.leaderCommit {
        log.CommitTo(Min(request.leaderCommit, log.LastIndex()));
      }
      Persist();
    }

    /** The counting loop of `replicateOneRound`. */
    method CommitRound(lastIndex: int)
      requires Valid() && peers != []
      modifies log
      ensures Valid() && Abs() == P.CommitRound(old(Abs()), lastIndex)
    {
      ghost var was := log.Abs();
      ghost var after := was.MaybeCommit(lastIndex, currentTerm);
      MaybeCommitAgain(was, lastIndex, currentTerm);
      DistinctSize(peers);
      var vote := 1;
      var i := 0;
      while i < |peers|
        invariant 0 <= i <= |peers| && log.Valid()
        invariant vote == 1 + |HoldersIn(peers[..i], matchIndex, lastIndex)|
        invariant log.Abs() == if i > 0 && vote > (|peers| + 1) / 2 then after else was
      {
        HoldersStep(peers, i, matchIndex, lastIndex);
        if matchIndex[peers[i]] >= lastIndex {
          vote := vote + 1;
        }
        if vote > (|peers| + 1) / 2 {
          var advanced := log.MaybeCommit(lastIndex, currentTerm);
        }
        i := i + 1;
      }
      assert peers[..i] == peers;
      assert HoldersIn(peers, matchIndex, lastIndex) == P.Holders(Abs(), lastIndex);
    }

    /** The second half of `replicateOneRound` after an AppendEntries. */
    method HandleAppendReply(peer: int, reply: P.AppendReply)
      requires Valid() && peer in peers
      modifies this, log
      ensures Valid() && Abs() == P.HandleAppendReply(old(Abs()), peer, reply)
    {
      if role != P.Leader {
        return;
      }
      if reply.term > currentTerm {
        BecomeFollower(reply.term, reply.leaderId);
        return;
      }
      if reply.term < currentTerm {
        return;
      }
      if !reply.success {
        if reply.nextIndex != 0 {
          Move(peer, reply.nextIndex, Min(matchIndex[peer], reply.nextIndex - 1));
        }
        return;
      }
      Advance(peer, reply.nextIndex);
    }

    method Advance(peer: int, next: int)
      requires Valid() && peer in peers
      modifies this, log
      ensures Valid() && Abs() == P.Advance(old(Abs()), peer, next)
    {
      if next > nextIndex[peer] {
        Move(peer, next, next - 1);
      }
      CommitRound(matchIndex[peer]);
    }

    method Move(peer: int, next: int, held: int)
      requires Valid() && peer in peers
      modifies `nextIndex, `matchIndex
      ensures Valid()
      ensures Abs() == old(Abs()).(nextIndex := old(nextIndex)[peer := next],
              matchIndex := old(matchIndex)[peer := held])
    {
      nextIndex := nextIndex[peer := next];
      matchIndex := matchIndex[peer := held];
    }

    method HandleInstallSnapshot(request: InstallRequest, ghost whole: Snapshot) returns (reply: P.InstallReply)
      requires Valid() && Stands(request.snapshot, whole)
      modifies this, log
      ensures Valid()
      ensures var (n, r, _) := P.HandleInstallSnapshot(old(Abs()),
              P.InstallArgs(request.term, request.leaderId, whole));
              Abs() == n && reply == r
    {
      var term, snap := currentTerm, request.snapshot;
      reply := P.InstallReply(term, leaderId);
      if request.term < currentTerm {
        return;
      }
      if request.term > currentTerm {
        BecomeFollower(request.term, request.leaderId);
      }
      reply := P.InstallReply(term, leaderId);
      InstallSnapshot(snap, whole);
    }

    method InstallSnapshot(snap: Saved, ghost whole: Snapshot)
      requires Valid() && Stands(snap, whole)
      modifies this, log
      ensures Valid() && Abs() == P.InstallSnapshot(old(Abs()), whole).0
    {
      if snap.index <= log.committed {
        return;
      }
      if log.MatchLog(snap.index, snap.term) {
        log.CommitTo(snap.index);
        return;
      }
      if snap.index > log.LastIndex() {
        log.ClearEntries(snap.index, snap.term, whole);
      } else {
        var done := log.Compact(snap.index);
      }
      PersistWith(snap, whole);
    }

    /** The second half of `replicateOneRound` after an InstallSnapshot. */
    method HandleInstallReply(peer: int, request: InstallRequest, ghost whole: Snapshot, reply: P.InstallReply)
      requires Valid() && peer in peers && Stands(request.snapshot, whole)
      modifies this
      ensures Valid()
      ensures Abs() == P.HandleInstallReply(old(Abs()), peer, P.InstallArgs(request.term, request.leaderId, whole),
              reply)
    {
      if currentTerm != request.term || role != P.Leader {
        return;
      }
      if reply.term > currentTerm {
        BecomeFollower(reply.term, reply.leaderId);
        return;
      }
      var index := request.snapshot.index;
      if index > matchIndex[peer] {
        matchIndex := matchIndex[peer := index];
      }
      if index > nextIndex[peer] {
        nextIndex := nextIndex[peer := index + 1];
      }
    }

    /** The first half of `replicateOneRound`; reading entries out of range would end the process. */
    method Replicate(peer: int) returns (out: Outgoing, ending: Ending)
      requires Valid() && peer in peers
      ensures ending == Returned
      ensures match P.Replicate(Abs(), peer, log.maxNextEntriesSize)
              case Nothing => out == Nothing
              case SendInstall(i) => out.SendInstall? &&
                                     out.install.term == i.term && out.install.leaderId == i.leaderId &&
                                     Stands(out.install.snapshot, i.snapshot)
              case SendAppend(a) => out.SendAppend? && out.append.Bare() == a &&
                                    Contiguous(out.append.entries, a.prevLogIndex + 1)
    {
      ending := Returned;
      if role != P.Leader {
        return Nothing, Returned;
      }
      var prevIndex := nextIndex[peer] - 1;
      if prevIndex < log.LastSnapshotIndex() {
        if saved.None? {
          return Nothing, Returned;
        }
        return SendInstall(InstallRequest(currentTerm, id, saved.value)), Returned;
      }
      var entries;
      entries, ending := log.EntriesFrom(nextIndex[peer]);
      out := SendAppend(AppendRequest(currentTerm, id, prevIndex, log.Term(prevIndex), entries, log.committed));
    }

    method Propose(data: string) returns (entry: Option<Indexed>)
      requires Valid()
      modifies log
      ensures Valid()
      ensures Abs() == P.Propose(old(Abs()), data).0
      ensures entry == if role == P.Leader
                       then Some(Indexed(|old(Abs()).log.full|, currentTerm, data)) else None
    {
      if role != P.Leader {
        return None;
      }
      var e := Indexed(log.LastIndex() + 1, currentTerm, data);
      log.Push(e);
      entry := Some(e);
    }

    method PersistStateAndSnapshot(index: nat, data: string)
      requires Valid()
      modifies this, log
      ensures Valid() && Abs() == P.TakeSnapshot(old(Abs()), index)
    {
      var ok, term := log.CreateSnapshot(index);
      if ok {
        ghost var whole := Snapshot(index, term, log.full[..index + 1]);
        var done := log.Compact(index);
        PersistWith(Saved(index, term, data), whole);
      }
    }

    /** `persistSnapshot`, called when the state machine has taken an installed snapshot. */
    method PersistSnapshot(snap: Saved, ghost whole: Snapshot)
      requires Valid() && Stands(snap, whole)
      modifies this, log
      ensures Valid() && Abs() == P.PersistSnapshot(old(Abs()), whole)
    {
      var done := log.Compact(snap.index);
      PersistWith(snap, whole);
    }
  }
}
