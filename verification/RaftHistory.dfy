/** What a run has brought about so far, and the facts every log is measured against.

    `logs[t]` is the log of the leader of term t, as far as that leader has written it, and
    `logs[0]` is the log every node starts with.  `wins[t]` names the leader of t and the
    votes it counted, `campaigns[(t, c)]` is the log with which c stood in t, `ballots` are all
    votes granted, and `acks` say which prefix of a term's log a node has confirmed; the term's leader
    confirms what it commits.  `misled`
    are the confirmations of snapshots that a node compacted over entries it knew to differ.
*/
module RaftHistory {
  import opened RaftLogSpec

  datatype Win = Win(leader: int, voters: set<int>)
  datatype Ballot = Ballot(term: int, voter: int, cand: int)
  datatype Ack = Ack(term: int, peer: int, upto: int)

  datatype History = History(
    cluster: set<int>,
    logs: map<int, seq<Entry>>,
    wins: map<int, Win>,
    campaigns: map<(int, int), seq<Entry>>,
    ballots: set<Ballot>,
    acks: set<Ack>,
    misled: set<Ack>)

  // ----- logs measured against the history

  /** The first `n` entries of `a` and `b` exist and are the same. */
  ghost predicate Agree(a: seq<Entry>, b: seq<Entry>, n: int) {
    n <= |a| && n <= |b| && forall i {:trigger a[i]} {:trigger b[i]} :: 0 <= i < n ==> a[i] == b[i]
  }

  /** Entry `i` of `x` and all before it are as the leader of that entry's term wrote them. */
  ghost predicate Anchored(h: History, x: seq<Entry>, i: int)
    requires 0 <= i < |x|
  {
    x[i].term in h.logs && Agree(x, h.logs[x[i].term], i + 1)
  }

  ghost predicate LogOK(h: History, x: seq<Entry>) {
    |x| > 0 && x[0] == DUMMY && forall i {:trigger Anchored(h, x, i)} :: 0 <= i < |x| ==> Anchored(h, x, i)
  }

  ghost predicate TermsUpTo(x: seq<Entry>, t: int) {
    forall i {:trigger x[i]} :: 0 <= i < |x| ==> 0 <= x[i].term <= t
  }

  // ----- acknowledged, chosen, safe

  ghost predicate Acked(h: History, p: int, t: int, k: int) {
    exists a :: a in h.acks && a.term == t && a.peer == p && k <= a.upto
  }

  ghost predicate Misled(h: History, p: int, t: int, k: int) {
    exists a :: a in h.misled && a.term == t && a.peer == p && k <= a.upto
  }

  /** Some term in (t, bound] has a leader without the first k + 1 entries of term t's log. */
  ghost predicate Lost(h: History, t: int, k: int, bound: int) {
    t in h.logs && exists u :: u in h.logs && t < u <= bound && !Agree(h.logs[u], h.logs[t], k + 1)
  }

  /** `x` still holds the first k + 1 entries of term t's log, or a leader up to `bound` lacked them. */
  ghost predicate Kept(h: History, x: seq<Entry>, t: int, k: int, bound: int) {
    t in h.logs && k < |h.logs[t]| && (Agree(x, h.logs[t], k + 1) || Lost(h, t, k, bound))
  }

  predicate Quorum(h: History, q: set<int>) {
    q <= h.cluster && |q| > |h.cluster| / 2
  }

  ghost predicate AckedByAll(h: History, q: set<int>, t: int, k: int) {
    forall p :: p in q ==> Acked(h, p, t, k)
  }

  /** Index k holds an entry of term t that a majority has acknowledged to its leader. */
  ghost predicate Chosen(h: History, t: int, k: int) {
    t in h.wins && t in h.logs && 0 <= k < |h.logs[t]| && h.logs[t][k].term == t &&
    exists q :: Quorum(h, q) && AckedByAll(h, q, t, k)
  }

  ghost predicate SafeBy(h: History, x: seq<Entry>, n: int, bound: int, t: int, k: int) {
    t <= bound && Chosen(h, t, k) && n <= k + 1 && Agree(x, h.logs[t], n)
  }

  /** The first `n` entries of `x` lie in what was chosen in some term up to `bound`. */
  ghost predicate Safe(h: History, x: seq<Entry>, n: int, bound: int) {
    n <= |x| && (n <= 1 || exists t, k :: SafeBy(h, x, n, bound, t, k))
  }

  // ----- the history's own invariant

  ghost predicate CurrentTermEntry(h: History, t: int, k: int) {
    t in h.logs && 0 <= k < |h.logs[t]| && h.logs[t][k].term == t
  }

  ghost predicate LogsOK(h: History) {
    && 0 in h.logs && h.logs[0] == [DUMMY]
    && (forall t :: t in h.logs ==> t >= 0 && LogOK(h, h.logs[t]) && TermsUpTo(h.logs[t], t))
    && (forall t :: t in h.logs <==> t == 0 || t in h.wins)
  }

  /** Two different votes of one node in one term: allowed only once the term has a leader
      that was elected without this node. */
  ghost predicate Excluded(h: History, t: int, v: int) {
    t in h.wins && v !in h.wins[t].voters
  }

  ghost predicate VotesOK(h: History) {
    && (forall b :: b in h.ballots ==> b.term > 0 && b.voter in h.cluster && b.cand in h.cluster)
    && (forall b, c :: b in h.ballots && c in h.ballots && b.term == c.term && b.voter == c.voter && b.cand != c.cand
                       ==> Excluded(h, b.term, b.voter))
    && (forall t :: t in h.wins ==> WinOK(h, t))
  }

  ghost predicate WinOK(h: History, t: int)
    requires t in h.wins
  {
    && t > 0
    && Quorum(h, h.wins[t].voters)
    && Ballot(t, h.wins[t].leader, h.wins[t].leader) in h.ballots
    && forall v :: v in h.wins[t].voters ==> Ballot(t, v, h.wins[t].leader) in h.ballots
  }

  ghost predicate CampaignsOK(h: History) {
    forall c :: c in h.campaigns ==> LogOK(h, h.campaigns[c]) && TermsUpTo(h.campaigns[c], c.0 - 1)
  }

  /** What the log comparison in the vote buys: whatever the voter had acknowledged in an
      earlier term, the candidate's log holds, or a leader in between had lost it. */
  ghost predicate BallotsOK(h: History) {
    forall b, t, k {:trigger b in h.ballots, Acked(h, b.voter, t, k)} ::
      b in h.ballots && Acked(h, b.voter, t, k) && t < b.term && CurrentTermEntry(h, t, k)
      ==> (b.term, b.cand) in h.campaigns && Kept(h, h.campaigns[(b.term, b.cand)], t, k, b.term)
  }

  /** The same for the votes an election was won with; no leader of that very term is to blame. */
  ghost predicate WinnersOK(h: History) {
    forall u, p, t, k {:trigger h.wins[u], Acked(h, p, t, k)} ::
      u in h.wins && p in h.wins[u].voters && Acked(h, p, t, k) && t < u && CurrentTermEntry(h, t, k)
      ==> u in h.logs && Kept(h, h.logs[u], t, k, u - 1)
  }

  ghost predicate AcksOK(h: History) {
    forall a :: a in h.acks ==> a.term in h.logs && 0 <= a.upto < |h.logs[a.term]| && a.peer in h.cluster
  }

  ghost predicate HistoryOK(h: History) {
    && LogsOK(h) && VotesOK(h) && CampaignsOK(h) && BallotsOK(h) && WinnersOK(h) && AcksOK(h)
  }

  // ----- consequences

  lemma TwoQuorumsMeet<T>(c: set<T>, q: set<T>, r: set<T>) returns (p: T)
    requires q <= c && r <= c && |q| > |c| / 2 && |r| > |c| / 2
    ensures p in q && p in r
  {
    SubsetSize(q + r, c);
    assert |q + r| == |q| + |r| - |q * r|;
    p := Pick(q * r);
  }

  lemma Pick<T>(s: set<T>) returns (p: T)
    requires s != {}
    ensures p in s
  {
    p :| p in s;
  }

  lemma SubsetSize<T>(a: set<T>, b: set<T>)
    requires a <= b
    ensures |a| <= |b|
  {
    assert b == a + (b - a);
  }

  /** Terms never fall along a log. */
  lemma TermsRise(h: History, x: seq<Entry>, i: int, j: int)
    requires LogsOK(h) && LogOK(h, x) && 0 <= i <= j < |x|
    ensures 0 <= x[i].term <= x[j].term
  {
    assert Anchored(h, x, j);
    assert x[i] == h.logs[x[j].term][i];
  }

  /** Log matching: two logs that share a term at an index share everything up to it. */
  lemma LogMatching(h: History, x: seq<Entry>, y: seq<Entry>, i: int)
    requires LogOK(h, x) && LogOK(h, y) && 0 <= i < |x| && i < |y| && x[i].term == y[i].term
    ensures Agree(x, y, i + 1)
  {
    assert Anchored(h, x, i) && Anchored(h, y, i);
  }

  /** Leader completeness: what was chosen in term t is in the log of every later leader. */
  lemma LeaderCompleteness(h: History, t: int, k: int, u: int)
    requires HistoryOK(h) && Chosen(h, t, k) && t < u && u in h.logs
    ensures Agree(h.logs[u], h.logs[t], k + 1)
    decreases u
  {
    var q :| Quorum(h, q) && AckedByAll(h, q, t, k);
    assert WinOK(h, u);
    var p := TwoQuorumsMeet(h.cluster, q, h.wins[u].voters);
    assert Acked(h, p, t, k);
    assert CurrentTermEntry(h, t, k);
    assert Kept(h, h.logs[u], t, k, u - 1);
    if Lost(h, t, k, u - 1) {
      var w :| w in h.logs && t < w <= u - 1 && !Agree(h.logs[w], h.logs[t], k + 1);
      LeaderCompleteness(h, t, k, w);
    }
  }

  /** A safe prefix is in the log of every leader from its bound on. */
  lemma SafeInLeader(h: History, x: seq<Entry>, n: int, bound: int, u: int)
    requires HistoryOK(h) && LogOK(h, x) && Safe(h, x, n, bound) && bound <= u && u in h.logs
    ensures Agree(x, h.logs[u], n)
  {
    if n <= 1 {
      assert LogOK(h, h.logs[u]);
    } else {
      var t, k :| SafeBy(h, x, n, bound, t, k);
      if t < u {
        LeaderCompleteness(h, t, k, u);
      }
    }
  }
}
