/** A leader and one follower, round trip by round trip: where the leader goes on after each answer, when
    the follower ends with the leader's log, and when the two repeat themselves for ever.
*/
module RaftCatchUp {
  import opened Options
  import opened RaftLogSpec
  import opened RaftLogLaws
  import opened RaftProtocol

  /** One `replicateOneRound` of `l` with the peer `f`, in which no message is lost. */
  function Round(l: Node, f: Node, cap: nat): (r: (Node, Node))
    requires f.id in l.nextIndex && f.id in l.matchIndex
    ensures r.1.id == f.id && f.id in r.0.nextIndex && f.id in r.0.matchIndex
  {
    match Replicate(l, f.id, cap)
    case Nothing => (l, f)
    case SendAppend(m) =>
      (match HandleAppendEntries(f, m)
       case Halt => (l, f)
       case Done(f1, reply) => (HandleAppendReply(l, f.id, reply), f1))
    case SendInstall(m) =>
      var (f1, reply, _) := HandleInstallSnapshot(f, m);
      (HandleInstallReply(l, f.id, m, reply), f1)
  }

  function Rounds(l: Node, f: Node, cap: nat, k: nat): (r: (Node, Node))
    requires f.id in l.nextIndex && f.id in l.matchIndex
    ensures r.1.id == f.id && f.id in r.0.nextIndex && f.id in r.0.matchIndex
    decreases k
  {
    if k == 0 then (l, f) else var (l1, f1) := Round(l, f, cap); Rounds(l1, f1, cap, k - 1)
  }

  /** A leader and a peer that has not heard of a later term, and that has compacted only what the
      leader has, too. */
  predicate Meets(l: Node, f: Node) {
    && l.role == Leader && f.id in l.nextIndex && f.id in l.matchIndex && Max(f.currentTerm, 0) <= l.currentTerm
    && l.log.Valid() && f.log.Valid() && TermsFrom(l.log.full, 0)
    && 1 <= l.nextIndex[f.id] <= |l.log.full|
    && (f.log.base < |l.log.full| ==> f.log.full[f.log.base].term == l.log.full[f.log.base].term)
  }

  /** The index just before those the leader sends next. */
  function Prev(l: Node, f: Node): int
    requires f.id in l.nextIndex
  {
    l.nextIndex[f.id] - 1
  }

  /** The follower has the leader's entry there. */
  predicate Matches(l: Node, f: Node)
    requires Meets(l, f)
  {
    f.log.base <= Prev(l, f) < |f.log.full| && f.log.full[Prev(l, f)].term == l.log.full[Prev(l, f)].term
  }

  /** How many entries a message with this next index carries. */
  function Carried(log: Log, next: int, cap: nat): int {
    if cap == NO_LIMIT then |log.full| - next else Min(|log.full| - next, cap)
  }

  // ----- what is sent

  /** A leader sends a peer that is behind its log's base the snapshot, if it has saved one, and any other the
      entries from the next index on, as many as the limit lets through; who does not lead sends nothing. */
  lemma SendsFrom(l: Node, peer: int, cap: nat)
    requires l.log.Valid() && TermsFrom(l.log.full, 0)
    requires peer in l.nextIndex && 1 <= l.nextIndex[peer] <= |l.log.full|
    ensures var next := l.nextIndex[peer];
      Replicate(l, peer, cap) ==
        if l.role != Leader || (next <= l.log.base && l.snapshot.None?) then Nothing
        else if next <= l.log.base then SendInstall(InstallArgs(l.currentTerm, l.id, l.snapshot.value))
        else SendAppend(AppendArgs(l.currentTerm, l.id, next - 1, l.log.full[next - 1].term,
                                   l.log.full[next..next + Carried(l.log, next, cap)], l.log.committed))
  {
  }

  // ----- a refused round

  lemma RefusedAnswer(f: Node, m: AppendArgs) returns (f1: Node, reply: AppendReply)
    requires f.currentTerm <= m.term && f.log.base <= m.prevLogIndex && !f.log.MatchLog(m.prevLogIndex, m.prevLogTerm)
    ensures HandleAppendEntries(f, m) == Done(f1, reply)
    ensures f1.id == f.id && f1.currentTerm == m.term && f1.log == f.log
    ensures !reply.success && reply.term == m.term && reply.nextIndex == f.log.ConflictHint(m.prevLogIndex)
  {
    var answer := HandleAppendEntries(f, m);
    f1, reply := answer.node, answer.reply;
  }

  /** The leader `l` after it has gone back to the hint `h`. */
  function MovedBack(l: Node, peer: int, h: int): Node
    requires peer in l.nextIndex && peer in l.matchIndex
  {
    l.(nextIndex := l.nextIndex[peer := h], matchIndex := l.matchIndex[peer := Min(l.matchIndex[peer], h - 1)])
  }

  lemma HintBounds(log: Log, prev: int)
    requires log.Valid() && log.base < prev
    ensures log.base <= log.ConflictHint(prev) <= prev
    ensures prev >= |log.full| ==> log.ConflictHint(prev) == |log.full|
  {
  }

  /** After a refusal the leader goes on at the follower's hint, which is lower than before; it does not
      go on if the hint is 0. The follower's log stays as it is. A hint of a follower whose log is too short
      makes its last entry the next to be compared. */
  lemma RefusedRound(l: Node, f: Node, cap: nat) returns (l1: Node, f1: Node)
    requires Meets(l, f) && !Matches(l, f) && Prev(l, f) >= Max(l.log.base, f.log.base)
    ensures Round(l, f, cap) == (l1, f1) && f1.log == f.log && f1.currentTerm == l.currentTerm && f1.id == f.id
    ensures var h := f.log.ConflictHint(Prev(l, f));
      && f.log.base <= h <= Prev(l, f)
      && (Prev(l, f) >= |f.log.full| ==> h - 1 == |f.log.full| - 1)
      && l1 == if h == 0 then l else MovedBack(l, f.id, h)
  {
    SendsFrom(l, f.id, cap);
    HintBounds(f.log, Prev(l, f));
    var reply;
    f1, reply := RefusedAnswer(f, Replicate(l, f.id, cap).append);
    l1 := HandleAppendReply(l, f.id, reply);
  }

  /** The message after that compares the entry just before the hint, while the leader retains it. */
  lemma ComparedAfterRefusal(l: Node, f: Node, cap: nat)
    requires Meets(l, f) && !Matches(l, f) && Prev(l, f) >= Max(l.log.base, f.log.base)
    requires f.log.ConflictHint(Prev(l, f)) > l.log.base
    ensures var h, next := f.log.ConflictHint(Prev(l, f)), Replicate(Round(l, f, cap).0, f.id, cap);
      next.SendAppend? && next.append.prevLogIndex == h - 1 && next.append.prevLogTerm == l.log.full[h - 1].term
  {
    var l1, f1 := RefusedRound(l, f, cap);
    SendsFrom(l1, f.id, cap);
  }

  // ----- an accepted round

  /** Two logs that agree up to every index at which their terms do, as logs of one cluster do. */
  ghost predicate Alike(a: seq<Entry>, b: seq<Entry>) {
    forall i :: 0 <= i < |a| && i < |b| && a[i].term == b[i].term ==> a[..i + 1] == b[..i + 1]
  }

  /** The leader has all that the follower has committed or compacted. */
  predicate Covers(l: Node, f: Node) {
    var k := Max(f.log.committed, f.log.base);
    k < |l.log.full| && k < |f.log.full| && f.log.full[..k + 1] == l.log.full[..k + 1]
  }

  /** The entries that the leader sends with this next index. */
  function Sent(l: Node, f: Node, cap: nat): seq<Entry>
    requires Meets(l, f)
  {
    l.log.full[l.nextIndex[f.id]..l.nextIndex[f.id] + Carried(l.log, l.nextIndex[f.id], cap)]
  }

  /** The message makes the follower commit what it does not vouch for. */
  predicate Overcommits(l: Node, f: Node, cap: nat)
    requires Meets(l, f)
  {
    Matches(l, f) && !Vouched(f.log, Prev(l, f), Sent(l, f, cap), l.log.committed)
  }

  /** No entry of the leader contradicts a committed one. */
  lemma CoveredIsNotFatal(l: Node, f: Node, cap: nat)
    requires Meets(l, f) && Matches(l, f) && Covers(l, f)
    ensures f.log.MaybeAppend(Prev(l, f), l.log.full[Prev(l, f)].term, l.log.committed, Sent(l, f, cap)).Appended?
  {
    var prev, entries := Prev(l, f), Sent(l, f, cap);
    AppendCases(f.log, prev, l.log.full[prev].term, l.log.committed, entries);
    forall k | 0 <= k < |entries| && prev + 1 + k <= f.log.committed
      ensures f.log.MatchLog(prev + 1 + k, entries[k].term)
    {
      assert f.log.full[..f.log.committed + 1][prev + 1 + k] == l.log.full[..f.log.committed + 1][prev + 1 + k];
    }
  }

  lemma CutAndCopied(x: seq<Entry>, y: seq<Entry>, c: nat, next: nat, count: nat)
    requires Alike(x, y) && 1 <= next <= c <= next + count <= |x| && c <= |y| && x[c - 1].term == y[c - 1].term
    ensures y[..c] + x[next..next + count][c - next..] == x[..next + count]
  {
    assert x[..c] == y[..c];
    assert x[next..next + count][c - next..] == x[c..next + count];
  }

  lemma JustBefore(x: seq<Entry>, log: Log, next: nat, count: nat, c: nat)
    requires next < c <= next + count <= |x|
    requires log.MatchLog(c - 1, x[next..next + count][c - 1 - next].term)
    ensures c <= |log.full| && log.full[c - 1].term == x[c - 1].term
  {
    assert x[next..next + count][c - 1 - next] == x[c - 1];
  }

  lemma TakenWhole(x: seq<Entry>, log: Log, next: nat, count: nat)
    requires Alike(x, log.full) && 1 <= next <= |log.full| && next + count <= |x|
    requires log.full[next - 1].term == x[next - 1].term && AllMatching(log, next - 1, x[next..next + count])
    ensures next + count <= |log.full| && log.full[..next + count] == x[..next + count]
  {
    if count > 0 {
      assert log.MatchLog(next - 1 + 1 + (count - 1), x[next..next + count][count - 1].term);
      JustBefore(x, log, next, count, next + count);
    }
  }

  lemma TakenCut(x: seq<Entry>, log: Log, next: nat, count: nat, after: Log, c: nat)
    requires Alike(x, log.full) && 1 <= next <= |log.full| && next + count <= |x|
    requires log.full[next - 1].term == x[next - 1].term
    requires OverwrittenFrom(log, after, next - 1, x[next..next + count], c)
    ensures after.full == x[..next + count]
  {
    if c > next {
      assert log.MatchLog(next - 1 + 1 + (c - 1 - next), x[next..next + count][c - 1 - next].term);
      JustBefore(x, log, next, count, c);
    }
    CutAndCopied(x, log.full, c, next, count);
  }

  /** A log takes entries of `x`, which it is like, has a term in common with just before them, and covers its
      committed entries. */
  ghost predicate Took(x: seq<Entry>, log: Log, next: nat, count: nat, commit: int, after: Log, last: int) {
    && log.Valid() && TermsFrom(x, 0) && Alike(x, log.full) && 1 <= next <= next + count <= |x| && commit < |x|
    && log.base < next <= |log.full| && log.full[next - 1].term == x[next - 1].term
    && log.committed < |x| && log.full[..log.committed + 1] == x[..log.committed + 1]
    && log.MaybeAppend(next - 1, x[next - 1].term, commit, x[next..next + count]) == Appended(after, last)
  }

  /** Then it stays, or becomes `x` up to the last of them. */
  lemma TakenFrom(x: seq<Entry>, log: Log, next: nat, count: nat, commit: int, after: Log, last: int)
    requires Took(x, log, next, count, commit, after, last)
    ensures last == next + count - 1 < |after.full| && after.base == log.base
    ensures after.full[..last + 1] == x[..last + 1]
    ensures after.full == log.full || after.full == x[..last + 1]
  {
    var c := AppendWhere(log, next - 1, x[next - 1].term, commit, x[next..next + count], after, last);
    if c == 0 { TakenWhole(x, log, next, count); } else { TakenCut(x, log, next, count, after, c); }
  }

  lemma CommitsUpTo(log: Log, prev: int, prevTerm: int, commit: int, entries: seq<Entry>, after: Log, last: int)
    requires log.Valid() && log.MaybeAppend(prev, prevTerm, commit, entries) == Appended(after, last)
    requires Vouched(log, prev, entries, commit)
    ensures var final := DeferredCommit(after, commit);
      final.Valid() && final.full == after.full && final.base == log.base && final.committed <= Max(log.committed, last)
  {
    AppendContract(log, prev, prevTerm, commit, entries, after, last);
    LengthAfter(log, prev, prevTerm, commit, entries, after, last);
  }

  lemma CommittedKept(x: seq<Entry>, log: Log, next: nat, count: nat, commit: int, after: Log, last: int)
    requires Took(x, log, next, count, commit, after, last)
    ensures log.committed < |after.full| && after.full[..log.committed + 1] == x[..log.committed + 1]
  {
    AppendAgrees(log, next - 1, x[next - 1].term, commit, x[next..next + count], after, last);
  }

  lemma AgreeUpTo(x: seq<Entry>, log: Log, next: nat, count: nat, commit: int, after: Log, last: int)
    requires Took(x, log, next, count, commit, after, last)
    ensures var upto := Max(log.committed, last);
      upto < |x| && upto < |after.full| && after.full[..upto + 1] == x[..upto + 1]
  {
    TakenFrom(x, log, next, count, commit, after, last);
    CommittedKept(x, log, next, count, commit, after, last);
  }

  lemma AgreeBelow(x: seq<Entry>, y: seq<Entry>, upto: nat, c: nat)
    requires c <= upto < |x| && upto < |y| && x[..upto + 1] == y[..upto + 1]
    ensures x[..c + 1] == y[..c + 1]
  {
    assert x[..upto + 1][..c + 1] == x[..c + 1] && y[..upto + 1][..c + 1] == y[..c + 1];
  }

  /** With what the deferred block commits, the committed entries are those of `x` again. */
  lemma CommitsCovered(x: seq<Entry>, log: Log, next: nat, count: nat, commit: int, after: Log, last: int)
    requires Took(x, log, next, count, commit, after, last) && Vouched(log, next - 1, x[next..next + count], commit)
    ensures var final := DeferredCommit(after, commit);
      && final.Valid() && final.full == after.full && final.base == log.base
      && final.committed < |x| && final.full[..final.committed + 1] == x[..final.committed + 1]
  {
    CommitsUpTo(log, next - 1, x[next - 1].term, commit, x[next..next + count], after, last);
    AgreeUpTo(x, log, next, count, commit, after, last);
    AgreeBelow(after.full, x, Max(log.committed, last), DeferredCommit(after, commit).committed);
  }

  /** What the follower makes of the message, and answers. */
  lemma AcceptedAnswer(f: Node, m: AppendArgs, after: Log, last: int) returns (f1: Node, reply: AppendReply)
    requires f.currentTerm <= m.term && f.log.base <= m.prevLogIndex
    requires f.log.MaybeAppend(m.prevLogIndex, m.prevLogTerm, m.leaderCommit, m.entries) == Appended(after, last)
    ensures HandleAppendEntries(f, m) == Done(f1, reply)
    ensures f1.id == f.id && f1.currentTerm == m.term && f1.log == DeferredCommit(after, m.leaderCommit)
    ensures reply.success && reply.term == m.term && reply.nextIndex == last + 1
  {
    var answer := HandleAppendEntries(f, m);
    f1, reply := answer.node, answer.reply;
  }

  /** `l1` is the leader `l` after an answer that the peer has all entries before `upto`. */
  predicate MovedOn(l: Node, peer: int, upto: int, l1: Node)
    requires l.log.Valid() && peer in l.nextIndex && peer in l.matchIndex
  {
    && l.log.committed <= l1.log.committed < |l.log.full|
    && l1 == l.(log := l.log.(committed := l1.log.committed), nextIndex := l.nextIndex[peer := upto],
                matchIndex := if upto > l.nextIndex[peer] then l.matchIndex[peer := upto - 1] else l.matchIndex)
  }

  /** What the leader makes of the answer. */
  lemma AcceptedReply(l: Node, peer: int, reply: AppendReply)
    requires l.role == Leader && l.log.Valid() && peer in l.nextIndex && peer in l.matchIndex
    requires reply.success && reply.term == l.currentTerm && reply.nextIndex >= l.nextIndex[peer]
    ensures MovedOn(l, peer, reply.nextIndex, HandleAppendReply(l, peer, reply))
  {
    assert l.nextIndex[peer := l.nextIndex[peer]] == l.nextIndex;
  }

  function Message(l: Node, f: Node, cap: nat): AppendArgs
    requires Meets(l, f)
  {
    AppendArgs(l.currentTerm, l.id, Prev(l, f), l.log.full[Prev(l, f)].term, Sent(l, f, cap), l.log.committed)
  }

  /** `after` is a follower's log that has taken entries of `x` up to `upto`: it has the entries before, and
      of `x` whatever it has committed. */
  predicate Holds(x: seq<Entry>, log: Log, after: Log, upto: nat) {
    && after.Valid() && after.base == log.base
    && upto <= |x| && upto <= |after.full| && after.full[..upto] == x[..upto]
    && (after.full != log.full ==> after.full == x[..upto])
    && after.committed < |x| && after.full[..after.committed + 1] == x[..after.committed + 1]
  }

  lemma HoldsAfter(x: seq<Entry>, log: Log, next: nat, count: nat, commit: int, after: Log, last: int)
    requires Took(x, log, next, count, commit, after, last) && Vouched(log, next - 1, x[next..next + count], commit)
    ensures last == next + count - 1 && Holds(x, log, DeferredCommit(after, commit), next + count)
  {
    TakenFrom(x, log, next, count, commit, after, last);
    CommitsCovered(x, log, next, count, commit, after, last);
  }

  lemma CoversCommitted(l: Node, f: Node)
    requires Covers(l, f)
    ensures f.log.committed < |l.log.full| && f.log.committed < |f.log.full|
    ensures f.log.full[..f.log.committed + 1] == l.log.full[..f.log.committed + 1]
  {
    AgreeBelow(f.log.full, l.log.full, Max(f.log.committed, f.log.base), f.log.committed);
  }

  lemma TakesMessage(l: Node, f: Node, cap: nat, next: nat, count: nat) returns (after: Log, last: int)
    requires Meets(l, f) && Matches(l, f) && Covers(l, f) && Alike(l.log.full, f.log.full) && !Overcommits(l, f, cap)
    requires next == l.nextIndex[f.id] && count == Carried(l.log, next, cap)
    ensures Took(l.log.full, f.log, next, count, l.log.committed, after, last)
    ensures Vouched(f.log, next - 1, l.log.full[next..next + count], l.log.committed)
    ensures var m := Message(l, f, cap);
      f.log.MaybeAppend(m.prevLogIndex, m.prevLogTerm, m.leaderCommit, m.entries) == Appended(after, last)
  {
    var m := Message(l, f, cap);
    assert m.entries == l.log.full[next..next + count] && m.prevLogIndex == next - 1;
    assert Vouched(f.log, next - 1, m.entries, m.leaderCommit);
    var outcome := f.log.MaybeAppend(m.prevLogIndex, m.prevLogTerm, m.leaderCommit, m.entries);
    assert outcome.Appended? by { CoveredIsNotFatal(l, f, cap); }
    CoversCommitted(l, f);
    after, last := outcome.log, outcome.last;
  }

  lemma AcceptedFollower(l: Node, f: Node, cap: nat, m: AppendArgs, upto: nat) returns (f1: Node, reply: AppendReply)
    requires Meets(l, f) && Matches(l, f) && Covers(l, f) && Alike(l.log.full, f.log.full) && !Overcommits(l, f, cap)
    requires upto == l.nextIndex[f.id] + Carried(l.log, l.nextIndex[f.id], cap) && m == Message(l, f, cap)
    ensures HandleAppendEntries(f, m) == Done(f1, reply)
    ensures reply.success && reply.term == l.currentTerm && reply.nextIndex == upto
    ensures f1.id == f.id && f1.currentTerm == l.currentTerm && Holds(l.log.full, f.log, f1.log, upto)
  {
    var next := l.nextIndex[f.id];
    var count := Carried(l.log, next, cap);
    var after, last := TakesMessage(l, f, cap, next, count);
    f1, reply := AcceptedAnswer(f, m, after, last);
    HoldsAfter(l.log.full, f.log, next, count, l.log.committed, after, last);
  }

  lemma SendsMessage(l: Node, f: Node, cap: nat) returns (m: AppendArgs)
    requires Meets(l, f) && Prev(l, f) >= l.log.base
    ensures m == Message(l, f, cap) && Replicate(l, f.id, cap) == SendAppend(m)
  {
    SendsFrom(l, f.id, cap);
    m := Message(l, f, cap);
  }

  lemma RoundAnswered(l: Node, f: Node, cap: nat, m: AppendArgs, f1: Node, reply: AppendReply, upto: int)
    returns (l1: Node)
    requires l.role == Leader && l.log.Valid() && f.id in l.nextIndex && f.id in l.matchIndex
    requires Replicate(l, f.id, cap) == SendAppend(m) && HandleAppendEntries(f, m) == Done(f1, reply)
    requires reply.success && reply.term == l.currentTerm && reply.nextIndex == upto >= l.nextIndex[f.id]
    ensures Round(l, f, cap) == (l1, f1) && MovedOn(l, f.id, upto, l1)
  {
    AcceptedReply(l, f.id, reply);
    l1 := HandleAppendReply(l, f.id, reply);
  }

  /** A round that is accepted: the leader goes on behind the last entry it has sent, and knows the follower to
      hold that one if it has sent any. The follower holds the leader's log up to there. */
  lemma AcceptedRound(l: Node, f: Node, cap: nat, upto: nat) returns (l1: Node, f1: Node)
    requires Meets(l, f) && Matches(l, f) && Prev(l, f) >= l.log.base
    requires Covers(l, f) && Alike(l.log.full, f.log.full) && !Overcommits(l, f, cap)
    requires upto == l.nextIndex[f.id] + Carried(l.log, l.nextIndex[f.id], cap)
    ensures Round(l, f, cap) == (l1, f1) && MovedOn(l, f.id, upto, l1)
    ensures f1.id == f.id && f1.currentTerm == l.currentTerm && Holds(l.log.full, f.log, f1.log, upto)
  {
    var m := SendsMessage(l, f, cap);
    var reply;
    f1, reply := AcceptedFollower(l, f, cap, m, upto);
    l1 := RoundAnswered(l, f, cap, m, f1, reply, upto);
  }

  // ----- until the follower has the leader's log

  /** A leader and a follower as they meet in a run of the cluster. */
  ghost predicate Paired(l: Node, f: Node) {
    Meets(l, f) && Covers(l, f) && Alike(l.log.full, f.log.full)
  }

  /** The follower has the leader's whole log, and the leader has nothing more to send. */
  predicate CaughtUp(l: Node, f: Node)
    requires Meets(l, f)
  {
    l.nextIndex[f.id] == |l.log.full| <= |f.log.full| && f.log.full[..|l.log.full|] == l.log.full
  }

  /** Only a snapshot can help the follower. */
  predicate NeedsSnapshot(l: Node, f: Node)
    requires Meets(l, f)
  {
    Prev(l, f) < l.log.base
  }

  /** The leader compares an entry that the follower has compacted; or the follower refuses, and what it has kept
      of its log up to the refused index is all of one term, so that its hint is the index it has compacted to. */
  predicate Stuck(l: Node, f: Node)
    requires Meets(l, f)
  {
    && l.log.base <= Prev(l, f)
    && (Prev(l, f) < f.log.base ||
        (!Matches(l, f) && f.log.ConflictHint(Prev(l, f)) == f.log.base &&
         (f.log.base == 0 || f.log.base > l.log.base)))
  }

  predicate SameEntries(l: Node, l1: Node) {
    l1.log.full == l.log.full && l1.log.base == l.log.base
  }

  /** How many rounds it takes at most. */
  function Left(l: Node, f: Node): nat
    requires Meets(l, f)
  {
    if Matches(l, f) then |l.log.full| - l.nextIndex[f.id] else |l.log.full| + l.nextIndex[f.id]
  }

  lemma HeldIsPaired(l: Node, f: Node, l1: Node, f1: Node, upto: nat)
    requires Paired(l, f) && Matches(l, f) && l.nextIndex[f.id] < upto && Holds(l.log.full, f.log, f1.log, upto)
    requires MovedOn(l, f.id, upto, l1) && f1.id == f.id && f1.currentTerm == l.currentTerm
    ensures Paired(l1, f1) && SameEntries(l, l1) && Left(l1, f1) < Left(l, f)
  {
    var x := l.log.full;
    assert f1.log.full[..upto][upto - 1] == x[..upto][upto - 1];
    AgreeBelow(f1.log.full, x, upto - 1, f.log.base);
    assert f1.log.full[..f.log.base + 1][f.log.base] == x[..f.log.base + 1][f.log.base];
    if f1.log.full != f.log.full { AlikePrefix(x, upto); }
  }

  lemma AlikePrefix(x: seq<Entry>, upto: nat)
    requires upto <= |x|
    ensures Alike(x, x[..upto])
  {
    forall i | 0 <= i < |x| && i < |x[..upto]| && x[i].term == x[..upto][i].term
      ensures x[..i + 1] == x[..upto][..i + 1]
    {
    }
  }

  lemma AcceptedOnward(l: Node, f: Node, cap: nat) returns (l1: Node, f1: Node)
    requires Paired(l, f) && Matches(l, f) && !NeedsSnapshot(l, f) && !Overcommits(l, f, cap) && cap > 0
    requires l.nextIndex[f.id] < |l.log.full|
    ensures Round(l, f, cap) == (l1, f1)
    ensures Paired(l1, f1) && SameEntries(l, l1) && f1.id == f.id && Left(l1, f1) < Left(l, f)
  {
    var upto := l.nextIndex[f.id] + Carried(l.log, l.nextIndex[f.id], cap);
    l1, f1 := AcceptedRound(l, f, cap, upto);
    HeldIsPaired(l, f, l1, f1, upto);
  }

  lemma BackIsPaired(l: Node, f: Node, l1: Node, f1: Node, h: int)
    requires Paired(l, f) && !Matches(l, f) && 0 < h < l.nextIndex[f.id] && l1 == MovedBack(l, f.id, h)
    requires f1.log == f.log && f1.id == f.id && f1.currentTerm == l.currentTerm
    ensures Paired(l1, f1) && SameEntries(l, l1) && Left(l1, f1) < Left(l, f)
  {
  }

  lemma RefusedOnward(l: Node, f: Node, cap: nat) returns (l1: Node, f1: Node)
    requires Paired(l, f) && !Matches(l, f) && !NeedsSnapshot(l, f) && !Stuck(l, f)
    ensures Round(l, f, cap) == (l1, f1)
    ensures Paired(l1, f1) && SameEntries(l, l1) && f1.id == f.id && Left(l1, f1) < Left(l, f)
  {
    l1, f1 := RefusedRound(l, f, cap);
    BackIsPaired(l, f, l1, f1, f.log.ConflictHint(Prev(l, f)));
  }

  /** Where rounds can end. */
  ghost predicate Ends(l: Node, f: Node, cap: nat) {
    Meets(l, f) && (CaughtUp(l, f) || NeedsSnapshot(l, f) || Stuck(l, f) || Overcommits(l, f, cap))
  }

  lemma MatchedAtEnd(l: Node, f: Node)
    requires Paired(l, f) && Matches(l, f) && l.nextIndex[f.id] == |l.log.full|
    ensures CaughtUp(l, f)
  {
    assert l.log.full[..|l.log.full|] == l.log.full;
  }

  lemma RoundHelps(l: Node, f: Node, cap: nat) returns (l1: Node, f1: Node)
    requires Paired(l, f) && cap > 0 && !Ends(l, f, cap)
    ensures Round(l, f, cap) == (l1, f1)
    ensures Paired(l1, f1) && SameEntries(l, l1) && f1.id == f.id && Left(l1, f1) < Left(l, f)
  {
    if Matches(l, f) {
      if l.nextIndex[f.id] == |l.log.full| { MatchedAtEnd(l, f); }
      l1, f1 := AcceptedOnward(l, f, cap);
    } else {
      l1, f1 := RefusedOnward(l, f, cap);
    }
  }

  ghost predicate EndsAfter(l: Node, f: Node, cap: nat, k: nat)
    requires f.id in l.nextIndex && f.id in l.matchIndex
  {
    Ends(Rounds(l, f, cap, k).0, Rounds(l, f, cap, k).1, cap)
  }

  ghost predicate NotBefore(l: Node, f: Node, cap: nat, k: nat)
    requires f.id in l.nextIndex && f.id in l.matchIndex
  {
    forall j: nat :: j < k ==> !EndsAfter(l, f, cap, j)
  }

  lemma NotBeforeNext(l: Node, f: Node, cap: nat, k: nat, l1: Node, f1: Node)
    requires f.id in l.nextIndex && f.id in l.matchIndex && Round(l, f, cap) == (l1, f1)
    requires !Ends(l, f, cap) && NotBefore(l1, f1, cap, k)
    ensures NotBefore(l, f, cap, k + 1)
  {
    forall j: nat | j < k + 1 ensures !EndsAfter(l, f, cap, j) {
      if j > 0 {
        RoundFirst(l, f, cap, j - 1, l1, f1);
        assert !EndsAfter(l1, f1, cap, j - 1);
      }
    }
  }

  /** The first round at which they end. */
  lemma {:induction false} RoundsEnd(l: Node, f: Node, cap: nat) returns (k: nat, l2: Node, f2: Node)
    requires Paired(l, f) && cap > 0
    ensures k <= Left(l, f) && Rounds(l, f, cap, k) == (l2, f2) && NotBefore(l, f, cap, k)
    ensures Paired(l2, f2) && SameEntries(l, l2) && f2.id == f.id && Ends(l2, f2, cap)
    decreases Left(l, f)
  {
    if Ends(l, f, cap) {
      k, l2, f2 := 0, l, f;
    } else {
      var l1, f1 := RoundHelps(l, f, cap);
      k, l2, f2 := RoundsEnd(l1, f1, cap);
      RoundFirst(l, f, cap, k, l1, f1);
      NotBeforeNext(l, f, cap, k, l1, f1);
      k := k + 1;
    }
  }

  lemma RoundFirst(l: Node, f: Node, cap: nat, k: nat, l1: Node, f1: Node)
    requires f.id in l.nextIndex && f.id in l.matchIndex && Round(l, f, cap) == (l1, f1)
    ensures Rounds(l, f, cap, k + 1) == Rounds(l1, f1, cap, k)
  {
  }

  lemma {:induction false} RoundsSplit(l: Node, f: Node, cap: nat, j: nat, k: nat)
    requires f.id in l.nextIndex && f.id in l.matchIndex
    ensures Rounds(l, f, cap, j + k) == Rounds(Rounds(l, f, cap, j).0, Rounds(l, f, cap, j).1, cap, k)
    decreases j
  {
    if j > 0 {
      var (l1, f1) := Round(l, f, cap);
      RoundFirst(l, f, cap, j - 1 + k, l1, f1);
      RoundFirst(l, f, cap, j - 1, l1, f1);
      RoundsSplit(l1, f1, cap, j - 1, k);
    }
  }

  /** A message without limit vouches for all that the leader has committed. */
  lemma WholeSuffixVouches(l: Node, f: Node)
    requires Meets(l, f)
    ensures !Overcommits(l, f, NO_LIMIT)
  {
  }

  /** Round by round the follower comes to have the leader's whole log, in no more rounds than the next index and
      the length of the log add up to, unless it needs a snapshot, the two are stuck, or a message overcommits. */
  lemma CatchesUp(l: Node, f: Node, cap: nat) returns (k: nat, l2: Node, f2: Node)
    requires Paired(l, f) && cap > 0
    ensures k <= Left(l, f) <= l.nextIndex[f.id] + |l.log.full|
    ensures Rounds(l, f, cap, k) == (l2, f2) && Paired(l2, f2) && SameEntries(l, l2)
    ensures CaughtUp(l2, f2) || NeedsSnapshot(l2, f2) || Stuck(l2, f2) || Overcommits(l2, f2, cap)
    ensures cap == NO_LIMIT ==> !Overcommits(l2, f2, cap)
  {
    k, l2, f2 := RoundsEnd(l, f, cap);
    if cap == NO_LIMIT { WholeSuffixVouches(l2, f2); }
  }

  // ----- for ever

  /** Stuck in terms of what the two logs hold. */
  lemma StuckIff(l: Node, f: Node)
    requires Meets(l, f) && f.log.base < |l.log.full|
    ensures var prev := Prev(l, f);
      Stuck(l, f) <==>
        l.log.base <= prev &&
        (prev < f.log.base ||
         (f.log.base < prev < |f.log.full| && f.log.full[prev].term != l.log.full[prev].term &&
          (forall j :: f.log.base < j < prev ==> f.log.full[j].term == f.log.full[prev].term) &&
          (f.log.base == 0 || f.log.base > l.log.base)))
  {
    if f.log.base < Prev(l, f) < |f.log.full| {
      HintSkipsOneTerm(f.log, Prev(l, f));
      HintAtBase(f.log, Prev(l, f));
    }
  }

  lemma HintAtBase(log: Log, prev: int)
    requires log.Valid() && log.base < prev <= log.LastIndex()
    ensures log.ConflictHint(prev) == log.base <==>
            forall j :: log.base < j < prev ==> log.full[j].term == log.full[prev].term
  {
    var h := log.ConflictHint(prev);
    if h == log.base {
      forall j | log.base < j < prev ensures log.full[j].term == log.full[prev].term {
        assert log.Term(j) == log.Term(prev);
      }
    } else {
      assert log.base < h < prev && log.Term(h) != log.Term(prev);
    }
  }

  /** An answer of term 0 says nothing to the leader. */
  lemma BelowBaseRound(l: Node, f: Node, cap: nat) returns (l1: Node, f1: Node)
    requires Meets(l, f) && l.log.base <= Prev(l, f) < f.log.base
    ensures Round(l, f, cap) == (l1, f1) && l1 == l
    ensures f1.id == f.id && f1.log == f.log && f1.currentTerm == l.currentTerm
  {
    SendsFrom(l, f.id, cap);
    l1, f1 := Round(l, f, cap).0, Round(l, f, cap).1;
  }

  lemma StuckStays(l: Node, f: Node, cap: nat) returns (l1: Node, f1: Node)
    requires Meets(l, f) && Stuck(l, f)
    ensures Round(l, f, cap) == (l1, f1) && f1.id == f.id
    ensures Meets(l1, f1) && Stuck(l1, f1) && f1.log == f.log && l1.log == l.log
  {
    if Prev(l, f) < f.log.base {
      l1, f1 := BelowBaseRound(l, f, cap);
    } else {
      l1, f1 := RefusedRound(l, f, cap);
    }
  }

  /** Two that are stuck stay so however many rounds follow, and the follower does not get the leader's log. */
  lemma {:induction false} StuckForEver(l: Node, f: Node, cap: nat, k: nat) returns (l1: Node, f1: Node)
    requires Meets(l, f) && Stuck(l, f) && f.log.base < |l.log.full|
    ensures Rounds(l, f, cap, k) == (l1, f1) && Meets(l1, f1)
    ensures Stuck(l1, f1) && !CaughtUp(l1, f1) && f1.log == f.log && l1.log == l.log
    decreases k
  {
    if k == 0 {
      l1, f1 := l, f;
      StuckIsBehind(l, f);
    } else {
      var l2, f2 := StuckStays(l, f, cap);
      l1, f1 := StuckForEver(l2, f2, cap, k - 1);
    }
  }

  lemma StuckIsBehind(l: Node, f: Node)
    requires Meets(l, f) && Stuck(l, f) && f.log.base < |l.log.full|
    ensures !CaughtUp(l, f)
  {
    if CaughtUp(l, f) { CaughtMatches(l, f); }
  }

  lemma CaughtMatches(l: Node, f: Node)
    requires Meets(l, f) && CaughtUp(l, f) && f.log.base < |l.log.full|
    ensures Matches(l, f)
  {
    assert f.log.full[..|l.log.full|][Prev(l, f)] == l.log.full[Prev(l, f)];
  }

  /** Nor does a follower that has the whole log lose it. */
  lemma CaughtStays(l: Node, f: Node) returns (l1: Node, f1: Node)
    requires Paired(l, f) && CaughtUp(l, f) && !NeedsSnapshot(l, f)
    ensures Round(l, f, NO_LIMIT) == (l1, f1) && f1.id == f.id && SameEntries(l, l1)
    ensures Paired(l1, f1) && CaughtUp(l1, f1) && !Stuck(l1, f1)
  {
    CaughtMatches(l, f);
    WholeSuffixVouches(l, f);
    l1, f1 := AcceptedRound(l, f, NO_LIMIT, |l.log.full|);
    HeldIsCaught(l, f, l1, f1);
    CaughtMatches(l1, f1);
  }

  lemma HeldIsCaught(l: Node, f: Node, l1: Node, f1: Node)
    requires Paired(l, f) && CaughtUp(l, f) && Matches(l, f)
    requires Holds(l.log.full, f.log, f1.log, |l.log.full|)
    requires MovedOn(l, f.id, |l.log.full|, l1) && f1.id == f.id && f1.currentTerm == l.currentTerm
    ensures Paired(l1, f1) && CaughtUp(l1, f1) && SameEntries(l, l1)
  {
    var x := l.log.full;
    assert x[..|x|] == x;
    AgreeBelow(f1.log.full, x, |x| - 1, f.log.base);
    assert f1.log.full[..f.log.base + 1][f.log.base] == x[..f.log.base + 1][f.log.base];
  }

  lemma {:induction false} CaughtForEver(l: Node, f: Node, k: nat) returns (l1: Node, f1: Node)
    requires Paired(l, f) && CaughtUp(l, f) && l.log.base == 0 && !Stuck(l, f)
    ensures Rounds(l, f, NO_LIMIT, k) == (l1, f1) && Meets(l1, f1) && CaughtUp(l1, f1) && !Stuck(l1, f1)
    decreases k
  {
    if k == 0 {
      l1, f1 := l, f;
    } else {
      var l2, f2 := CaughtStays(l, f);
      l1, f1 := CaughtForEver(l2, f2, k - 1);
    }
  }

  ghost predicate CaughtUpAfter(l: Node, f: Node, k: nat)
    requires f.id in l.nextIndex && f.id in l.matchIndex
  {
    var r := Rounds(l, f, NO_LIMIT, k);
    Meets(r.0, r.1) && CaughtUp(r.0, r.1)
  }

  ghost predicate StuckAfter(l: Node, f: Node, k: nat)
    requires f.id in l.nextIndex && f.id in l.matchIndex
  {
    var r := Rounds(l, f, NO_LIMIT, k);
    Meets(r.0, r.1) && Stuck(r.0, r.1)
  }

  lemma AfterSplit(l: Node, f: Node, k: nat, l2: Node, f2: Node, j: nat)
    requires f.id in l.nextIndex && f.id in l.matchIndex && f2.id in l2.nextIndex && f2.id in l2.matchIndex
    requires Rounds(l, f, NO_LIMIT, k) == (l2, f2) && j >= k
    ensures StuckAfter(l, f, j) == StuckAfter(l2, f2, j - k) && CaughtUpAfter(l, f, j) == CaughtUpAfter(l2, f2, j - k)
  {
    RoundsSplit(l, f, NO_LIMIT, k, j - k);
  }

  lemma NeitherBefore(l: Node, f: Node, k: nat, j: nat)
    requires f.id in l.nextIndex && f.id in l.matchIndex && NotBefore(l, f, NO_LIMIT, k) && j < k
    ensures !StuckAfter(l, f, j) && !CaughtUpAfter(l, f, j)
  {
    assert !EndsAfter(l, f, NO_LIMIT, j);
  }

  lemma NeverStuck(l: Node, f: Node, k: nat)
    requires Paired(l, f) && l.log.base == 0 && CaughtUp(l, f) && !Stuck(l, f)
    ensures !StuckAfter(l, f, k)
  {
    var l1, f1 := CaughtForEver(l, f, k);
  }

  lemma NeverCaughtUp(l: Node, f: Node, k: nat)
    requires Meets(l, f) && f.log.base < |l.log.full| && Stuck(l, f)
    ensures !CaughtUpAfter(l, f, k)
  {
    var l1, f1 := StuckForEver(l, f, NO_LIMIT, k);
  }

  lemma NeverStuckFrom(l: Node, f: Node, k: nat, l2: Node, f2: Node)
    requires f.id in l.nextIndex && f.id in l.matchIndex && Rounds(l, f, NO_LIMIT, k) == (l2, f2)
    requires f2.id in l2.nextIndex && f2.id in l2.matchIndex && NotBefore(l, f, NO_LIMIT, k)
    requires forall i: nat :: !StuckAfter(l2, f2, i)
    ensures forall j: nat :: !StuckAfter(l, f, j)
  {
    forall j: nat ensures !StuckAfter(l, f, j) {
      if j < k {
        NeitherBefore(l, f, k, j);
      } else {
        AfterSplit(l, f, k, l2, f2, j);
      }
    }
  }

  lemma NeverCaughtUpFrom(l: Node, f: Node, k: nat, l2: Node, f2: Node)
    requires f.id in l.nextIndex && f.id in l.matchIndex && Rounds(l, f, NO_LIMIT, k) == (l2, f2)
    requires f2.id in l2.nextIndex && f2.id in l2.matchIndex && NotBefore(l, f, NO_LIMIT, k)
    requires forall i: nat :: !CaughtUpAfter(l2, f2, i)
    ensures forall j: nat :: !CaughtUpAfter(l, f, j)
  {
    forall j: nat ensures !CaughtUpAfter(l, f, j) {
      if j < k {
        NeitherBefore(l, f, k, j);
      } else {
        AfterSplit(l, f, k, l2, f2, j);
      }
    }
  }

  /** A leader that has compacted nothing brings a follower up to its log if and only if no round leaves the two
      stuck. */
  lemma CatchesUpIff(l: Node, f: Node)
    requires Paired(l, f) && l.log.base == 0
    ensures (exists k: nat :: CaughtUpAfter(l, f, k)) <==> !exists k: nat :: StuckAfter(l, f, k)
  {
    var k, l2, f2 := RoundsEnd(l, f, NO_LIMIT);
    WholeSuffixVouches(l2, f2);
    if CaughtUp(l2, f2) {
      CaughtMatches(l2, f2);
      assert CaughtUpAfter(l, f, k);
      forall i: nat ensures !StuckAfter(l2, f2, i) { NeverStuck(l2, f2, i); }
      NeverStuckFrom(l, f, k, l2, f2);
    } else {
      assert StuckAfter(l, f, k);
      forall i: nat ensures !CaughtUpAfter(l2, f2, i) { NeverCaughtUp(l2, f2, i); }
      NeverCaughtUpFrom(l, f, k, l2, f2);
    }
  }

  // ----- with a snapshot

  /** After a snapshot whose index lies above the next index the leader goes on behind it, with the entry at
      the snapshot's index the next to be compared. At the next index itself it does not move, and as long as
      its log begins there it sends the snapshot again. */
  lemma InstallRound(l: Node, f: Node, cap: nat, snap: Snapshot) returns (l1: Node, f1: Node)
    requires Meets(l, f) && NeedsSnapshot(l, f) && l.snapshot == Some(snap)
    requires l.log.base <= snap.index < |l.log.full|
    ensures Round(l, f, cap) == (l1, f1) && l1.log == l.log && l1.role == Leader
    ensures l1.nextIndex == if snap.index > l.nextIndex[f.id] then l.nextIndex[f.id := snap.index + 1] else l.nextIndex
    ensures l1.matchIndex == l.matchIndex[f.id := Max(snap.index, l.matchIndex[f.id])]
    ensures f1 == HandleInstallSnapshot(f, InstallArgs(l.currentTerm, l.id, snap)).0
    ensures snap.index > l.nextIndex[f.id] ==>
              Replicate(l1, f.id, cap) ==
              SendAppend(AppendArgs(l.currentTerm, l.id, snap.index, l.log.full[snap.index].term,
                                    l.log.full[snap.index + 1..snap.index + 1 + Carried(l.log, snap.index + 1, cap)],
                                    l.log.committed))
    ensures snap.index <= l.nextIndex[f.id] ==>
              snap.index == l.nextIndex[f.id] == l.log.base &&
              Replicate(l1, f.id, cap) == SendInstall(InstallArgs(l.currentTerm, l.id, snap))
  {
    SendsFrom(l, f.id, cap);
    l1, f1 := Round(l, f, cap).0, Round(l, f, cap).1;
    assert l.matchIndex[f.id := l.matchIndex[f.id]] == l.matchIndex;
    SendsFrom(l1, f.id, cap);
  }

  /** What the snapshot brings the follower: the entry at its index is committed, or the log is replaced by the
      snapshot, or it is only compacted up to there. The leader's next message then finds its previous entry,
      unless the follower has compacted further, or has kept an entry that differs. */
  lemma InstalledMatches(l: Node, f: Node, cap: nat, snap: Snapshot)
    requires Meets(l, f) && Covers(l, f) && NeedsSnapshot(l, f) && l.snapshot == Some(snap)
    requires l.log.base <= snap.index < |l.log.full| && l.nextIndex[f.id] < snap.index
    requires snap.prefix == l.log.full[..snap.index + 1] && snap.term == l.log.full[snap.index].term
    ensures var (f1, _, branch) := HandleInstallSnapshot(f, InstallArgs(l.currentTerm, l.id, snap));
      && f1.id == f.id && f1.currentTerm == l.currentTerm
      && match branch {
           case Stale => false
           case Ignored => f1.log == f.log && f.log.committed >= snap.index
           case FastForwarded => f1.log == f.log.(committed := snap.index)
           case Cleared => f1.log == f.log.(full := snap.prefix, base := snap.index) && f1.snapshot == Some(snap)
           case Compacted => f1.log == f.log.(base := Max(f.log.base, snap.index)) && f1.snapshot == Some(snap) &&
                             (f.log.base <= snap.index ==> f.log.full[snap.index].term != snap.term)
         }
      && (f1.log.base <= snap.index < |f1.log.full| && f1.log.full[snap.index].term == l.log.full[snap.index].term <==>
            f.log.base <= snap.index && !branch.Compacted?)
  {
    var k := Max(f.log.committed, f.log.base);
    if snap.index <= k { assert f.log.full[..k + 1][snap.index] == l.log.full[..k + 1][snap.index]; }
  }

  /** The leader's snapshot ends where the peer's next index is. */
  predicate SnapshotAtNext(l: Node, f: Node) {
    && l.role == Leader && f.id in l.nextIndex && f.id in l.matchIndex && f.currentTerm <= l.currentTerm
    && l.snapshot.Some? && l.snapshot.value.index == l.nextIndex[f.id] == l.log.base
  }

  lemma SnapshotAgain(l: Node, f: Node, cap: nat) returns (l1: Node, f1: Node)
    requires SnapshotAtNext(l, f)
    ensures Replicate(l, f.id, cap) == SendInstall(InstallArgs(l.currentTerm, l.id, l.snapshot.value))
    ensures Round(l, f, cap) == (l1, f1) && f1.id == f.id && SnapshotAtNext(l1, f1)
  {
    l1, f1 := Round(l, f, cap).0, Round(l, f, cap).1;
  }

  /** Then every round sends the snapshot and none an entry. */
  lemma {:induction false} SnapshotForEver(l: Node, f: Node, cap: nat, k: nat) returns (l1: Node, f1: Node)
    requires SnapshotAtNext(l, f)
    ensures Rounds(l, f, cap, k) == (l1, f1) && f1.id == f.id && SnapshotAtNext(l1, f1)
    ensures Replicate(l1, f.id, cap).SendInstall?
    decreases k
  {
    var l2, f2 := SnapshotAgain(l, f, cap);
    if k == 0 { l1, f1 := l, f; } else { l1, f1 := SnapshotForEver(l2, f2, cap, k - 1); }
  }

  // ----- rejections in a row

  /** A round that is refused with a hint that the leader can follow, after which `l1` is the leader: it may have
      done anything else but move that peer's next index. */
  predicate RefusedStep(l: Node, f: Node, cap: nat, l1: Node) {
    && Meets(l, f) && Prev(l, f) >= Max(l.log.base, f.log.base) && !Matches(l, f)
    && f.log.ConflictHint(Prev(l, f)) > 0
    && f.id in l1.nextIndex && l1.nextIndex[f.id] == Round(l, f, cap).0.nextIndex[f.id]
  }

  lemma RefusedStepMeans(l: Node, f: Node, cap: nat, l1: Node)
    requires RefusedStep(l, f, cap, l1)
    ensures f.log.Valid() && f.log.base < l.nextIndex[f.id]
    ensures l1.nextIndex[f.id] == f.log.ConflictHint(l.nextIndex[f.id] - 1) > 0
  {
    var l2, f1 := RefusedRound(l, f, cap);
  }

  /** Such rounds in a row with one peer, whose log in between may become any other. */
  predicate RefusedRounds(ls: seq<Node>, fs: seq<Node>, cap: nat, peer: int) {
    && |ls| == |fs| + 1
    && forall k {:trigger fs[k]} :: 0 <= k < |fs| ==> fs[k].id == peer && RefusedStep(ls[k], fs[k], cap, ls[k + 1])
  }

  lemma RefusalsReject(ls: seq<Node>, fs: seq<Node>, cap: nat, peer: int, next: seq<int>, logs: seq<Log>)
    requires RefusedRounds(ls, fs, cap, peer) && |next| == |ls| && |logs| == |fs|
    requires forall k :: 0 <= k < |ls| ==> peer in ls[k].nextIndex && next[k] == ls[k].nextIndex[peer]
    requires forall k :: 0 <= k < |fs| ==> logs[k] == fs[k].log
    ensures Rejections(next, logs)
  {
    forall k | 0 <= k < |logs|
      ensures logs[k].Valid() && logs[k].base < next[k] && next[k + 1] == logs[k].ConflictHint(next[k] - 1) > 0
    {
      assert fs[k].id == peer;
      RefusedStepMeans(ls[k], fs[k], cap, ls[k + 1]);
    }
  }

  /** There are fewer of them than the next index at the start, and each lowers it. */
  lemma RefusalsEnd(ls: seq<Node>, fs: seq<Node>, cap: nat, peer: int)
    requires RefusedRounds(ls, fs, cap, peer) && fs != []
    ensures forall k :: 0 <= k < |ls| ==> peer in ls[k].nextIndex
    ensures |fs| < ls[0].nextIndex[peer]
    ensures forall k {:trigger fs[k]} :: 0 <= k < |fs| ==> ls[k + 1].nextIndex[peer] < ls[k].nextIndex[peer]
  {
    forall k | 0 <= k < |ls| ensures peer in ls[k].nextIndex {
      assert if k < |fs| then fs[k].id == peer else fs[k - 1].id == peer;
    }
    var next := seq(|ls|, k requires 0 <= k < |ls| => ls[k].nextIndex[peer]);
    var logs := seq(|fs|, k requires 0 <= k < |fs| => fs[k].log);
    RefusalsReject(ls, fs, cap, peer, next, logs);
    assert fs[0].id == peer;
    BacktrackingEnds(next, logs);
    forall k | 0 <= k < |fs| ensures ls[k + 1].nextIndex[peer] < ls[k].nextIndex[peer] {
      assert logs[k].base < next[k];
    }
  }
}
