/** What entries from a leader's log do to the log of a node that takes them. */
module RaftAppend {
  import opened RaftLogSpec
  import opened RaftProtocol
  import opened RaftHistory
  import opened RaftSystem
  import opened RaftFrame

  /** What `findConflict` passes over is the same in the log and in `x`. */
  lemma PassedOver(log: Log, prev: int, entries: seq<Entry>, x: seq<Entry>, upto: int)
    requires Stretch(entries, x, prev) && Meet(log.full, x, prev) && prev <= upto <= prev + |entries|
    requires var c := log.FindConflict(prev + 1, entries); c == 0 || upto < c
    ensures Agree(log.full, x, upto + 1)
  {
    log.FirstConflict(prev + 1, entries);
    forall i | prev < i <= upto ensures i < |log.full| && log.full[i] == x[i] {
      assert log.MatchLog(prev + 1 + (i - prev - 1), entries[i - prev - 1].term);
    }
    assert upto < |log.full| by {
      if upto > prev { assert x[upto] == entries[upto - prev - 1]; }
    }
  }

  lemma AppendFrom(log: Log, prev: int, entries: seq<Entry>, x: seq<Entry>, c: int, after: Log)
    requires Stretch(entries, x, prev) && NonNegative(x) && Meet(log.full, x, prev) && log.base <= prev
    requires c == log.FindConflict(prev + 1, entries) && log.committed < c <= |log.full| && prev < c <= prev + |entries|
    requires after.full == log.full[..c] + entries[c - (prev + 1)..]
    ensures Agree(after.full, x, prev + |entries| + 1) && CutAt(log, after, x, c)
  {
    PassedOver(log, prev, entries, x, c - 1);
    log.FirstConflict(prev + 1, entries);
    assert entries[c - (prev + 1)] == x[c];
    assert |after.full| == prev + |entries| + 1;
    forall i | c <= i < |after.full| ensures after.full[i] == x[i] {
      assert after.full[i] == entries[i - (prev + 1)];
    }
    assert !log.MatchLog(c, x[c].term);
  }

  /** What `maybeAppend` does to a log, given entries from log `x`: the log agrees with `x` to
      the last new index, and is either what it was or cut right there after the first difference. */
  lemma AppendEffect(log: Log, prev: int, prevTerm: int, commit: int, entries: seq<Entry>, x: seq<Entry>,
                     after: Log, last: int)
    requires Stretch(entries, x, prev) && NonNegative(x) && Meet(log.full, x, prev)
    requires log.MaybeAppend(prev, prevTerm, commit, entries) == Appended(after, last)
    ensures last == prev + |entries|
    ensures Agree(after.full, x, last + 1)
    ensures after.base == log.base && after.applied == log.applied
    ensures after.full == log.full || Cut(log, after, x)
    ensures after.committed == Max(log.committed, Min(commit, last))
  {
    var c := log.FindConflict(prev + 1, entries);
    log.ConflictInReach(prev, prevTerm, entries);
    if c == 0 {
      PassedOver(log, prev, entries, x, last);
    } else {
      AppendFrom(log, prev, entries, x, c, after);
    }
  }

  ghost predicate NonNegative(x: seq<Entry>) {
    forall i :: 0 <= i < |x| ==> x[i].term >= 0
  }

  /** `full` and `x` agree up to `prev`, and beyond it wherever their terms are equal. */
  ghost predicate Meet(full: seq<Entry>, x: seq<Entry>, prev: int) {
    && 0 <= prev && Agree(full, x, prev + 1)
    && forall i :: prev < i < |full| && i < |x| && full[i].term == x[i].term ==> full[i] == x[i]
  }

  /** `after` is `before` up to some index past the commit index, where `before` ends or
      differs from `x`, and from there on as far as `after` goes it is `x`. */
  ghost predicate Cut(before: Log, after: Log, x: seq<Entry>) {
    exists c :: CutAt(before, after, x, c)
  }

  ghost predicate CutAt(before: Log, after: Log, x: seq<Entry>, c: int) {
    && before.committed < c <= |before.full| && c < |after.full| <= |x|
    && Agree(before.full, after.full, c)
    && Agree(after.full, x, |after.full|)
    && (c < |before.full| ==> before.full[c] != x[c])
  }

  lemma AppendKeepsLogOK(h: History, before: Log, after: Log, u: int)
    requires LogsOK(h) && u in h.logs && LogOK(h, before.full) && TermsUpTo(before.full, u)
    requires after.full == before.full || Cut(before, after, h.logs[u])
    ensures LogOK(h, after.full) && TermsUpTo(after.full, u)
  {
    if after.full != before.full {
      var c :| CutAt(before, after, h.logs[u], c);
      assert LogOK(h, h.logs[u]);
      PrefixOK(h, after.full, h.logs[u]);
    }
  }

  lemma PrefixOK(h: History, x: seq<Entry>, y: seq<Entry>)
    requires LogOK(h, y) && 0 < |x| && Agree(x, y, |x|)
    ensures LogOK(h, x)
  {
    forall i | 0 <= i < |x| ensures Anchored(h, x, i) { assert Anchored(h, y, i); }
  }

  /** Two logs that match at an index agree up to it, and beyond wherever their terms are equal. */
  lemma LogsMeet(h: History, full: seq<Entry>, x: seq<Entry>, prev: int)
    requires LogOK(h, full) && LogOK(h, x) && 0 <= prev < |full| && prev < |x| && full[prev].term == x[prev].term
    ensures Meet(full, x, prev)
  {
    LogMatching(h, full, x, prev);
    forall i | prev < i < |full| && i < |x| && full[i].term == x[i].term ensures full[i] == x[i] {
      LogMatching(h, full, x, i);
    }
  }

  lemma TermsNotNegative(h: History, t: int)
    requires LogsOK(h) && t in h.logs
    ensures NonNegative(h.logs[t])
  {
    assert TermsUpTo(h.logs[t], t);
  }

  lemma AppendedMatches(log: Log, prev: int, prevTerm: int, commit: int, entries: seq<Entry>)
    requires log.MaybeAppend(prev, prevTerm, commit, entries).Appended?
    ensures log.base <= prev < |log.full| && log.full[prev].term == prevTerm
  {
  }

  /** The log and commit index after entries from the leader of term `m.term`. */
  lemma TakenEntries(h: History, was: Log, m: AppendArgs, log: Log, last: int)
    requires LogsOK(h) && LogOK(h, was.full) && Carries(h, m)
    requires was.MaybeAppend(m.prevLogIndex, m.prevLogTerm, m.leaderCommit, m.entries) == Appended(log, last)
    ensures last == m.prevLogIndex + |m.entries|
    ensures Agree(log.full, h.logs[m.term], last + 1) && (log.full == was.full || Cut(was, log, h.logs[m.term]))
    ensures log.committed == Max(was.committed, Min(m.leaderCommit, last)) && log.base == was.base
  {
    var x := h.logs[m.term];
    AppendedMatches(was, m.prevLogIndex, m.prevLogTerm, m.leaderCommit, m.entries);
    LogsMeet(h, was.full, x, m.prevLogIndex);
    TermsNotNegative(h, m.term);
    AppendEffect(was, m.prevLogIndex, m.prevLogTerm, m.leaderCommit, m.entries, x, log, last);
  }

  // ----- the leader's own entry

  ghost function WithEntry(h: History, t: int, e: Entry): History
    requires t in h.logs
  {
    h.(logs := h.logs[t := h.logs[t] + [e]])
  }

  lemma LongerOK(k: History, x: seq<Entry>, e: Entry)
    requires LogOK(k, x) && e.term in k.logs && k.logs[e.term] == x + [e]
    ensures LogOK(k, x + [e])
  {
    var y := x + [e];
    forall i | 0 <= i < |y| ensures Anchored(k, y, i) {
      if i < |x| { assert Anchored(k, x, i); }
    }
  }

  // ----- what a leader sends

  lemma SuffixIsStretch(log: Log, next: int, cap: nat)
    requires log.Valid() && log.base < next <= |log.full|
    ensures Stretch(log.Suffix(next, cap), log.full, next - 1)
  {
  }

  lemma SuffixReaches(log: Log, next: int, cap: nat)
    requires log.Valid() && log.base < next <= |log.full| && (cap == NO_LIMIT || |log.full| <= cap + 1)
    ensures next - 1 + |log.Suffix(next, cap)| == log.LastIndex()
  {
  }

  lemma SentIs(n: Node, peer: int, cap: nat)
    requires peer in n.nextIndex && Replicate(n, peer, cap).SendAppend?
    ensures var m, next := Replicate(n, peer, cap).append, n.nextIndex[peer];
      && n.role == Leader && n.log.base < next
      && m.term == n.currentTerm && m.leaderId == n.id && m.prevLogIndex == next - 1
      && m.prevLogTerm == n.log.Term(next - 1)
      && m.entries == n.log.Suffix(next, cap) && m.leaderCommit == n.log.committed
  {
  }

  lemma OnReplicateIs(s: System, n: Node, peer: int)
    requires peer in n.nextIndex
    ensures var u := OnReplicate(s, n, peer);
      && u.nodes == s.nodes && u.h == s.h && u.cap == s.cap
      && forall m :: m in u.msgs ==>
           || m in s.msgs
           || (Replicate(n, peer, s.cap).SendAppend? && m == AppendReq(peer, Replicate(n, peer, s.cap).append))
           || (Replicate(n, peer, s.cap).SendInstall? && m == InstallReq(peer, Replicate(n, peer, s.cap).install))
  {
  }
}
