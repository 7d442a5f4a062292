/** That elections can be won and proposals committed: what the vote check and the counting of
    majorities let through, for clusters of every size.
*/
module RaftProgress {
  import opened Options
  import opened RaftLogSpec
  import opened RaftLogLaws
  import opened RaftProtocol

  // ----- the vote check

  /** Of two logs one is up to date with the other, and both are only if they end alike. */
  lemma OneIsUpToDate(a: Log, b: Log)
    ensures a.IsUpToDate(b.LastIndex(), b.LastTerm()) || b.IsUpToDate(a.LastIndex(), a.LastTerm())
    ensures a.IsUpToDate(b.LastIndex(), b.LastTerm()) && b.IsUpToDate(a.LastIndex(), a.LastTerm()) ==>
              a.LastIndex() == b.LastIndex() && a.LastTerm() == b.LastTerm()
  {
  }

  lemma UpToDateChains(a: Log, b: Log, index: int, term: int)
    requires a.IsUpToDate(b.LastIndex(), b.LastTerm()) && b.IsUpToDate(index, term)
    ensures a.IsUpToDate(index, term)
  {
  }

  /** The node has not given its vote of term `t` to another. */
  predicate MayVote(n: Node, t: int, candidate: int) {
    t > n.currentTerm || (t == n.currentTerm && (n.votedFor == NONE || n.votedFor == candidate))
  }

  /** A vote is granted to whoever may have it and has a log that ends in a later term, or in the same
      term no earlier; then the node has given its vote of that term. */
  lemma GrantedIff(n: Node, request: VoteArgs)
    ensures var (n1, reply) := HandleRequestVote(n, request);
      && (reply.voteGranted <==>
            MayVote(n, request.term, request.candidateId) &&
            (request.lastLogTerm > n.log.LastTerm() ||
             (request.lastLogTerm == n.log.LastTerm() && request.lastLogIndex >= n.log.LastIndex())))
      && (reply.voteGranted ==>
            n1.currentTerm == n1.hard.term == reply.term == request.term &&
            n1.votedFor == n1.hard.vote == request.candidateId)
  {
  }

  /** What a candidate whose term is `t` sends. */
  function RequestOf(c: Node, t: int): VoteArgs {
    VoteArgs(t, c.id, c.log.LastIndex(), c.log.LastTerm())
  }

  /** A node that may vote grants its vote to every candidate that it could not get a vote from. */
  lemma GrantsTheStronger(n: Node, c: Node, t: int)
    requires MayVote(n, t, c.id) && !HandleRequestVote(c, RequestOf(n, c.currentTerm + 1)).1.voteGranted
    ensures HandleRequestVote(n, RequestOf(c, t)).1.voteGranted
  {
    OneIsUpToDate(n.log, c.log);
  }

  /** Among any nodes there is one that all of them would vote for in any term not yet voted in. */
  lemma {:induction false} SomeoneIsGranted(nodes: map<int, Node>, q: set<int>, t: int) returns (c: int)
    requires q != {} && q <= nodes.Keys && forall v :: v in q ==> t > nodes[v].currentTerm
    ensures c in q && forall v :: v in q ==> HandleRequestVote(nodes[v], RequestOf(nodes[c], t)).1.voteGranted
    decreases |q|
  {
    var x := Pick(q);
    if q == {x} {
      c := x;
    } else {
      var rest := q - {x};
      c := SomeoneIsGranted(nodes, rest, t);
      OneIsUpToDate(nodes[x].log, nodes[c].log);
      if !nodes[x].log.IsUpToDate(nodes[c].log.LastIndex(), nodes[c].log.LastTerm()) {
        forall v | v in rest ensures HandleRequestVote(nodes[v], RequestOf(nodes[x], t)).1.voteGranted {
          UpToDateChains(nodes[v].log, nodes[c].log, nodes[x].log.LastIndex(), nodes[x].log.LastTerm());
        }
        c := x;
      }
    }
  }

  lemma Pick<T>(s: set<T>) returns (x: T)
    requires s != {}
    ensures x in s && (s == {x} || s - {x} != {})
  {
    x :| x in s;
  }

  // ----- the count of votes

  /** A candidate becomes leader with a vote that makes the votes counted more than half of the
      cluster, and with no other; it then expects nothing of any peer. */
  lemma LeadsIff(n: Node, peer: int, request: VoteArgs, reply: VoteReply)
    requires n.role == Candidate && n.currentTerm == request.term && reply.voteGranted
    ensures var n1 := HandleVoteReply(n, peer, request, reply);
      && (n1.role == Leader <==> 2 * |n.granted + {peer}| > |n.peers| + 1)
      && (n1.role == Leader ==>
            n1.nextIndex.Keys == n1.matchIndex.Keys == n.peers && n1.currentTerm == n.currentTerm && n1.log == n.log &&
            forall p :: p in n.peers ==> n1.nextIndex[p] == |n.log.full| && n1.matchIndex[p] == 0)
      && (n1.role != Leader ==> n1 == n.(granted := n.granted + {peer}))
  {
  }

  /** The answers of peers to one election, in the order in which they come in. */
  function Counted(n: Node, request: VoteArgs, answers: seq<(int, VoteReply)>): Node {
    if answers == [] then n
    else
      var last := answers[|answers| - 1];
      HandleVoteReply(Counted(n, request, answers[..|answers| - 1]), last.0, request, last.1)
  }

  function Granting(answers: seq<(int, VoteReply)>): set<int> {
    set k | 0 <= k < |answers| && answers[k].1.voteGranted :: answers[k].0
  }

  lemma GrantingMore(answers: seq<(int, VoteReply)>)
    requires answers != []
    ensures var last := answers[|answers| - 1];
      Granting(answers) == Granting(answers[..|answers| - 1]) + if last.1.voteGranted then {last.0} else {}
  {
    var init := answers[..|answers| - 1];
    forall k | 0 <= k < |init| ensures init[k] == answers[k] {}
  }

  /** `n1` is the candidate `n` after the peers in `voters` have voted for it. */
  predicate Tally(n: Node, voters: set<int>, n1: Node) {
    && n1.currentTerm == n.currentTerm
    && (n1.role == Leader <==> voters != {} && 2 * |{n.id} + voters| > |n.peers| + 1)
    && (n1.role != Leader ==> n1 == n.(granted := {n.id} + voters))
  }

  lemma TallyOne(n: Node, voters: set<int>, n1: Node, peer: int, request: VoteArgs, reply: VoteReply)
    requires n.role == Candidate && n.currentTerm == request.term && reply.term <= request.term
    requires Tally(n, voters, n1)
    ensures Tally(n, if reply.voteGranted then voters + {peer} else voters, HandleVoteReply(n1, peer, request, reply))
  {
    if reply.voteGranted {
      assert {n.id} + voters + {peer} == {n.id} + (voters + {peer});
      if n1.role == Leader {
        AtMost({n.id} + voters, {n.id} + (voters + {peer}));
      } else {
        LeadsIff(n1, peer, request, reply);
      }
    } else {
      assert HandleVoteReply(n1, peer, request, reply) == n1;
    }
  }

  lemma AtMost<T>(a: set<T>, b: set<T>)
    requires a <= b
    ensures |a| <= |b|
  {
    assert b == a + (b - a);
  }

  /** If no answer tells of a later term, a candidate becomes leader exactly if somebody voted for it and
      its voters and itself are more than half of the cluster. A cluster of one node has no leader. */
  lemma {:induction false} ElectionIsCounted(n: Node, request: VoteArgs, answers: seq<(int, VoteReply)>)
    requires n.role == Candidate && n.currentTerm == request.term && n.granted == {n.id}
    requires forall a :: a in answers ==> a.1.term <= request.term
    ensures Tally(n, Granting(answers), Counted(n, request, answers))
  {
    if answers == [] {
      assert {n.id} + Granting(answers) == {n.id};
    } else {
      var init, last := answers[..|answers| - 1], answers[|answers| - 1];
      assert last in answers;
      ElectionIsCounted(n, request, init);
      GrantingMore(answers);
      TallyOne(n, Granting(init), Counted(n, request, init), last.0, request, last.1);
    }
  }

  // ----- an election from the first timeout to the last vote

  /** A node whose election timer has fired so many times. */
  function TimedOut(n: Node, times: nat): Node {
    if times == 0 then n else ElectionTimeout(TimedOut(n, times - 1)).0
  }

  lemma {:induction false} Campaigning(n: Node, times: nat)
    ensures var n1 := TimedOut(n, times);
      && n1.id == n.id && n1.peers == n.peers && n1.log == n.log && n1.currentTerm == n.currentTerm + times
      && (times > 0 ==> n1.role == Candidate && n1.granted == {n.id})
      && ElectionTimeout(n1).1 == RequestOf(n, n.currentTerm + times + 1)
  {
    if times > 0 { Campaigning(n, times - 1); }
  }

  function Among(asked: seq<int>): set<int> {
    set v | v in asked
  }

  /** What the nodes asked answer. */
  function Answers(nodes: map<int, Node>, asked: seq<int>, request: VoteArgs): (answers: seq<(int, VoteReply)>)
    requires Among(asked) <= nodes.Keys
    ensures |answers| == |asked|
  {
    seq(|asked|, i requires 0 <= i < |asked| =>
      assert asked[i] in Among(asked); (asked[i], HandleRequestVote(nodes[asked[i]], request).1))
  }

  ghost predicate AllGrant(nodes: map<int, Node>, voters: set<int>, request: VoteArgs) {
    voters <= nodes.Keys && forall v :: v in voters ==> HandleRequestVote(nodes[v], request).1.voteGranted
  }

  lemma AllAnswersGrant(nodes: map<int, Node>, asked: seq<int>, request: VoteArgs)
    requires AllGrant(nodes, Among(asked), request)
    ensures Granting(Answers(nodes, asked, request)) == Among(asked)
    ensures forall a :: a in Answers(nodes, asked, request) ==> a.1.term <= request.term
  {
    var answers := Answers(nodes, asked, request);
    forall i | 0 <= i < |asked|
      ensures answers[i].0 == asked[i] && answers[i].1.voteGranted && answers[i].1.term == request.term
    {
      GrantedIff(nodes[asked[i]], request);
    }
  }

  lemma TallyDecides(n: Node, voters: set<int>, n1: Node, c: int, peers: set<int>)
    requires Tally(n, voters, n1) && n.id == c && n.peers == peers
    ensures n1.role == Leader <==> voters != {} && 2 * |{c} + voters| > |peers| + 1
  {
  }

  /** The candidate in term `t` after the answers of the nodes asked. */
  function Elected(nodes: map<int, Node>, c: int, t: int, asked: seq<int>): Node
    requires c in nodes && t > nodes[c].currentTerm && Among(asked) <= nodes.Keys
  {
    var request := RequestOf(nodes[c], t);
    Counted(TimedOut(nodes[c], t - nodes[c].currentTerm), request, Answers(nodes, asked, request))
  }

  lemma ElectedTally(nodes: map<int, Node>, c: int, t: int, asked: seq<int>)
    requires c in nodes && t > nodes[c].currentTerm && AllGrant(nodes, Among(asked), RequestOf(nodes[c], t))
    ensures Tally(TimedOut(nodes[c], t - nodes[c].currentTerm), Among(asked), Elected(nodes, c, t, asked))
  {
    var n, request := TimedOut(nodes[c], t - nodes[c].currentTerm), RequestOf(nodes[c], t);
    Campaigning(nodes[c], t - nodes[c].currentTerm);
    AllAnswersGrant(nodes, asked, request);
    var answers := Answers(nodes, asked, request);
    assert Tally(n, Among(asked), Counted(n, request, answers)) by { ElectionIsCounted(n, request, answers); }
  }

  lemma ElectedIff(nodes: map<int, Node>, c: int, t: int, asked: seq<int>)
    requires c in nodes && t > nodes[c].currentTerm && nodes[c].id == c
    requires AllGrant(nodes, Among(asked), RequestOf(nodes[c], t))
    ensures Elected(nodes, c, t, asked).role == Leader <==>
              Among(asked) != {} && 2 * |{c} + Among(asked)| > |nodes[c].peers| + 1
  {
    ElectedTally(nodes, c, t, asked);
    Campaigning(nodes[c], t - nodes[c].currentTerm);
    TallyDecides(TimedOut(nodes[c], t - nodes[c].currentTerm), Among(asked), Elected(nodes, c, t, asked),
                 c, nodes[c].peers);
  }

  /** A cluster of which more than half can answer can elect a leader: one of those nodes, once its term is
      above all of theirs, has the votes of all of them, in whatever order their answers come in. */
  lemma SomeoneCanWin(nodes: map<int, Node>, q: set<int>, t: int) returns (c: int)
    requires |q| > 1 && q <= nodes.Keys
    requires forall v :: v in q ==> nodes[v].id == v && t > nodes[v].currentTerm && 2 * |q| > |nodes[v].peers| + 1
    ensures c in q
    ensures forall asked: seq<int> | Among(asked) == q - {c} :: Elected(nodes, c, t, asked).role == Leader
  {
    c := SomeoneIsGranted(nodes, q, t);
    forall asked: seq<int> | Among(asked) == q - {c} ensures Elected(nodes, c, t, asked).role == Leader {
      ElectedIff(nodes, c, t, asked);
      assert {c} + (q - {c}) == q && q != {c};
    }
  }

  // ----- the count of copies

  /** The leader commits index `i` exactly if more than half of the cluster, itself included, hold it, it lies
      above the commit index and in the log, and its entry is of the current term; nothing else changes. */
  lemma CommitsIff(n: Node, i: int)
    requires n.log.Valid() && n.currentTerm >= 0
    ensures var holders := set p | p in n.peers && p in n.matchIndex && n.matchIndex[p] >= i;
      var counts := 2 * (1 + |holders|) > |n.peers| + 1 && n.log.committed < i < |n.log.full| &&
                    i >= n.log.base && n.log.full[i].term == n.currentTerm;
      && (CommitRound(n, i).log.committed == i && i != n.log.committed <==> counts)
      && CommitRound(n, i) == if counts then n.(log := n.log.(committed := i)) else n
  {
    assert Holders(n, i) == set p | p in n.peers && p in n.matchIndex && n.matchIndex[p] >= i;
  }

  /** A leader of whose log no peer is known to hold index `i`, an entry of its own term. */
  predicate Fresh(n: Node, i: int) {
    && n.role == Leader && n.log.Valid() && n.currentTerm >= 0
    && n.log.committed < i < |n.log.full| && n.log.base <= i && n.log.full[i].term == n.currentTerm
    && n.nextIndex.Keys == n.matchIndex.Keys == n.peers
    && forall p :: p in n.peers ==> n.matchIndex[p] < i && n.nextIndex[p] <= i
  }

  /** A proposal is fresh. */
  lemma ProposedIsFresh(n: Node, data: string)
    requires n.role == Leader && n.log.Valid() && n.currentTerm >= 0
    requires n.nextIndex.Keys == n.matchIndex.Keys == n.peers
    requires forall p :: p in n.peers ==> n.matchIndex[p] < |n.log.full| && n.nextIndex[p] <= |n.log.full|
    ensures var (n1, accepted) := Propose(n, data);
      && accepted && Fresh(n1, |n.log.full|)
      && n1.log.full == n.log.full + [Entry(n.currentTerm, data)]
  {
  }

  /** The peers in `acked` have confirmed all up to `i`, one after the other, each at least once. */
  function Acknowledged(n: Node, acked: seq<int>, i: int): (n1: Node)
    requires n.nextIndex.Keys == n.matchIndex.Keys == n.peers && forall k :: 0 <= k < |acked| ==> acked[k] in n.peers
    ensures n1.nextIndex.Keys == n1.matchIndex.Keys == n1.peers == n.peers
  {
    if acked == [] then n
    else
      var n1 := Acknowledged(n, acked[..|acked| - 1], i);
      HandleAppendReply(n1, acked[|acked| - 1], AppendReply(true, n1.currentTerm, n1.id, i + 1))
  }

  /** What is known of the peers when those in `holders` have confirmed all up to `i`. */
  predicate Known(n: Node, holders: set<int>, i: nat, n1: Node)
    requires n.nextIndex.Keys == n.matchIndex.Keys == n.peers
  {
    && n1.nextIndex.Keys == n1.matchIndex.Keys == n.peers
    && (forall p :: p in n.peers ==> n1.matchIndex[p] == if p in holders then i else n.matchIndex[p])
    && (forall p :: p in n.peers ==> n1.nextIndex[p] == if p in holders then i + 1 else n.nextIndex[p])
  }

  lemma HoldersAre(n: Node, holders: set<int>, i: nat, n1: Node)
    requires Fresh(n, i) && holders <= n.peers && n1.peers == n.peers && Known(n, holders, i, n1)
    ensures (set p | p in n1.peers && p in n1.matchIndex && n1.matchIndex[p] >= i) == holders
  {
    forall p | p in n1.peers && p in n1.matchIndex ensures n1.matchIndex[p] >= i <==> p in holders {
      assert n.matchIndex[p] < i;
    }
    assert forall p :: p in holders ==> p in n1.peers && p in n1.matchIndex && n1.matchIndex[p] >= i;
  }

  /** The node before the count. */
  function Marked(n: Node, peer: int, i: nat): Node {
    n.(nextIndex := n.nextIndex[peer := i + 1], matchIndex := n.matchIndex[peer := i])
  }

  lemma KnownOfOneMore(n: Node, holders: set<int>, i: nat, n1: Node, peer: int)
    requires Fresh(n, i) && n1.role == Leader && peer in n.peers && Known(n, holders, i, n1)
    ensures Known(n, holders + {peer}, i, Marked(n1, peer, i))
    ensures HandleAppendReply(n1, peer, AppendReply(true, n1.currentTerm, n1.id, i + 1)) ==
            CommitRound(Marked(n1, peer, i), i)
  {
    if peer in holders {
      assert n1.matchIndex[peer := i] == n1.matchIndex && n1.nextIndex[peer := i + 1] == n1.nextIndex;
    }
  }

  /** `n1` is the leader `n` after that. */
  predicate CopiedTo(n: Node, holders: set<int>, i: nat, n1: Node)
    requires n.nextIndex.Keys == n.matchIndex.Keys == n.peers
  {
    && Known(n, holders, i, n1)
    && var commits := holders != {} && 2 * (1 + |holders|) > |n.peers| + 1;
       n1 == n.(nextIndex := n1.nextIndex, matchIndex := n1.matchIndex,
                log := if commits then n.log.(committed := i) else n.log)
  }

  /** One confirmation: the peer holds `i` now, and the count decides. */
  lemma CopiedToOne(n: Node, holders: set<int>, i: nat, n1: Node, peer: int)
    requires Fresh(n, i) && holders <= n.peers && peer in n.peers && CopiedTo(n, holders, i, n1)
    ensures CopiedTo(n, holders + {peer}, i,
                     HandleAppendReply(n1, peer, AppendReply(true, n1.currentTerm, n1.id, i + 1)))
  {
    var n2 := Marked(n1, peer, i);
    AtMost(holders, holders + {peer});
    KnownOfOneMore(n, holders, i, n1, peer);
    HoldersAre(n, holders + {peer}, i, n2);
    CommitsIff(n2, i);
  }

  /** An entry of the leader's own term is committed as soon as the peers that have confirmed it are, with
      the leader, more than half of the cluster, and no sooner. */
  lemma {:induction false} CommittedIffCopied(n: Node, acked: seq<int>, i: nat)
    requires Fresh(n, i) && forall k :: 0 <= k < |acked| ==> acked[k] in n.peers
    ensures CopiedTo(n, Among(acked), i, Acknowledged(n, acked, i))
  {
    if acked == [] {
    } else {
      var init, last := acked[..|acked| - 1], acked[|acked| - 1];
      CommittedIffCopied(n, init, i);
      assert Among(acked) == Among(init) + {last} by { assert acked == init + [last]; }
      CopiedToOne(n, Among(init), i, Acknowledged(n, init, i), last);
    }
  }

  /** With confirmations that reach differently far: the confirmation of the one of `q` that holds least
      commits what it holds, if `q` and the leader are more than half. */
  lemma LeastHolderCommits(n: Node, peer: int, q: set<int>)
    requires n.log.Valid() && n.currentTerm >= 0 && peer in q && q <= n.peers && q <= n.matchIndex.Keys
    requires 2 * (1 + |q|) > |n.peers| + 1 && forall p :: p in q ==> n.matchIndex[peer] <= n.matchIndex[p]
    requires var i := n.matchIndex[peer]; n.log.base <= i < |n.log.full| && n.log.full[i].term == n.currentTerm
    ensures CommitRound(n, n.matchIndex[peer]).log.committed >= n.matchIndex[peer]
  {
    var i := n.matchIndex[peer];
    forall p | p in q ensures p in Holders(n, i) {}
    AtMost(q, Holders(n, i));
    CommitsIff(n, i);
  }

  // ----- terms, restarts and snapshots

  /** A request brings a node to the later of the two terms, out of office if that is a new one; a request of an
      earlier term is refused and changes nothing but what is saved. */
  lemma LaterTermWins(n: Node, vote: VoteArgs, append: AppendArgs, install: InstallArgs)
    ensures var (n1, reply) := HandleRequestVote(n, vote);
      && n1.currentTerm == reply.term == Max(n.currentTerm, vote.term)
      && (vote.term > n.currentTerm ==> n1.role == Follower)
      && (vote.term < n.currentTerm ==> n1 == Persist(n) && !reply.voteGranted)
    ensures match HandleAppendEntries(n, append)
      case Halt => append.term >= n.currentTerm
      case Done(n1, reply) =>
        && n1.currentTerm == Max(n.currentTerm, append.term)
        && (append.term > n.currentTerm ==> n1.role == Follower)
        && (append.term == n.currentTerm ==> n1.role == if n.role == Candidate then Follower else n.role)
        && (append.term < n.currentTerm ==> n1 == Persist(n) && !reply.success && reply.term == n.currentTerm)
    ensures var (n1, reply, branch) := HandleInstallSnapshot(n, install);
      && n1.currentTerm == Max(n.currentTerm, install.term)
      && (install.term > n.currentTerm ==> n1.role == Follower)
      && (install.term < n.currentTerm ==> n1 == n && reply.term == n.currentTerm && branch == Stale)
  {
  }

  /** A node that takes messages of a term knows a leader: the sender, if the term is new to it or it knew none. */
  lemma LeaderKnown(n: Node, append: AppendArgs, install: InstallArgs)
    ensures append.term >= n.currentTerm && HandleAppendEntries(n, append).Done? ==>
              HandleAppendEntries(n, append).node.leaderId ==
              if append.term > n.currentTerm || n.role == Candidate || n.leaderId < 0 then append.leaderId
              else n.leaderId
    ensures install.term >= n.currentTerm ==>
              HandleInstallSnapshot(n, install).0.leaderId ==
              if install.term > n.currentTerm then install.leaderId else n.leaderId
  {
  }

  /** A message that is accepted brings the commit index up to the leader's, as far as the log then reaches. */
  lemma CommitLearnt(n: Node, m: AppendArgs)
    requires n.log.Valid() && HandleAppendEntries(n, m).Done? && HandleAppendEntries(n, m).reply.success
    ensures var log := HandleAppendEntries(n, m).node.log;
      log.committed == Max(n.log.committed, Min(m.leaderCommit, |log.full| - 1))
  {
    var n1 := FollowLeader(n, m);
    var outcome := n1.log.MaybeAppend(m.prevLogIndex, m.prevLogTerm, m.leaderCommit, m.entries);
    AppendContract(n1.log, m.prevLogIndex, m.prevLogTerm, m.leaderCommit, m.entries, outcome.log, outcome.last);
  }

  /** An answer that tells of a later term puts a leader or a candidate out of office, in that term and without a
      vote given; one to a request of an earlier term does nothing. */
  lemma LaterTermDeposes(n: Node, peer: int, asked: VoteArgs, vote: VoteReply, append: AppendReply,
                         offered: InstallArgs, install: InstallReply)
    requires peer in n.nextIndex && peer in n.matchIndex
    ensures n.role == Candidate && asked.term == n.currentTerm < vote.term && !vote.voteGranted ==>
              Deposed(n, vote.term, HandleVoteReply(n, peer, asked, vote))
    ensures n.role == Leader && n.currentTerm < append.term ==>
              Deposed(n, append.term, HandleAppendReply(n, peer, append))
    ensures n.role == Leader && offered.term == n.currentTerm < install.term ==>
              Deposed(n, install.term, HandleInstallReply(n, peer, offered, install))
    ensures asked.term < n.currentTerm ==> HandleVoteReply(n, peer, asked, vote) == n
    ensures append.term < n.currentTerm ==> HandleAppendReply(n, peer, append) == n
    ensures offered.term < n.currentTerm ==> HandleInstallReply(n, peer, offered, install) == n
  {
  }

  /** Out of office, and so saved. */
  predicate Deposed(n: Node, term: int, n1: Node) {
    && n1.role == Follower && n1.currentTerm == n1.hard.term == term && n1.votedFor == n1.hard.vote == NONE
    && n1.log == n.log && n1.hard.full == n.log.full
  }

  /** A node that starts again after `persist` has its term, vote, commit index and entries, and begins to
      apply behind its snapshot. */
  lemma RestartKeeps(n: Node)
    ensures var n1 := Restart(Persist(n));
      && n1.currentTerm == n.currentTerm && n1.votedFor == n.votedFor && n1.snapshot == n.snapshot
      && n1.log == n.log.(applied := n.log.base) && n1.role == Follower && n1.id == n.id && n1.peers == n.peers
  {
  }

  /** An installed snapshot is saved whatever its index, and the log then begins there if it reaches so far. */
  lemma SnapshotSaved(n: Node, snap: Snapshot)
    ensures var n1 := PersistSnapshot(n, snap);
      && n1.snapshot == Some(snap)
      && n1.hard == Hard(n.currentTerm, n.votedFor, n.log.committed, n.log.full, n1.log.base)
      && n1 == n.(log := n1.log, hard := n1.hard, snapshot := n1.snapshot)
      && n1.log == n.log.(base := if n.log.base < snap.index < |n.log.full| then snap.index else n.log.base)
  {
  }

  /** A snapshot is taken at every committed index behind the last one, and at no other: the log then begins there,
      and no entry is changed. */
  lemma SnapshotTakenIff(n: Node, index: nat)
    requires n.log.Valid()
    ensures TakeSnapshot(n, index) ==
      if n.log.base < index <= n.log.committed
      then n.(log := n.log.(base := index),
              hard := Hard(n.currentTerm, n.votedFor, n.log.committed, n.log.full, index),
              snapshot := Some(Snapshot(index, n.log.full[index].term, n.log.full[..index + 1])))
      else n
  {
  }
}
