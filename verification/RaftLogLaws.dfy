/** Laws of the log operations, for every log and every message. */
module RaftLogLaws {
  import opened RaftLogSpec

  // ----- maybeAppend

  predicate TermsFrom(entries: seq<Entry>, low: int) {
    forall k :: 0 <= k < |entries| ==> entries[k].term >= low
  }

  /** When `maybeAppend` answers, when it refuses, and when it ends the process. */
  lemma AppendCases(log: Log, prev: int, prevTerm: int, commit: int, entries: seq<Entry>)
    ensures log.MaybeAppend(prev, prevTerm, commit, entries).NoMatch? <==> !log.MatchLog(prev, prevTerm)
    ensures log.MaybeAppend(prev, prevTerm, commit, entries).Fatal? <==>
              log.MatchLog(prev, prevTerm) &&
              exists k :: 0 <= k < |entries| && prev + 1 + k <= log.committed &&
                  !log.MatchLog(prev + 1 + k, entries[k].term)
  {
    if log.MatchLog(prev, prevTerm) {
      log.FirstConflict(prev + 1, entries);
      var c := log.FindConflict(prev + 1, entries);
      if c != 0 && c <= log.committed {
        assert !log.MatchLog(prev + 1 + (c - prev - 1), entries[c - prev - 1].term);
      }
    }
  }

  /** `after` is `log` up to its first conflict `c` with the entries, and from there on the entries. */
  predicate OverwrittenFrom(log: Log, after: Log, prev: int, entries: seq<Entry>, c: int) {
    && 0 <= log.committed < c <= |log.full| && 0 <= prev < c <= prev + |entries|
    && !log.MatchLog(c, entries[c - (prev + 1)].term)
    && (forall k {:trigger entries[k]} :: 0 <= k < c - (prev + 1) ==> log.MatchLog(prev + 1 + k, entries[k].term))
    && after.full == log.full[..c] + entries[c - (prev + 1)..]
  }

  /** Where an accepted message cuts the log, 0 if it does not. */
  lemma AppendWhere(log: Log, prev: int, prevTerm: int, commit: int, entries: seq<Entry>, after: Log, last: int)
    returns (c: int)
    requires log.Valid() && log.MaybeAppend(prev, prevTerm, commit, entries) == Appended(after, last)
    ensures after.base == log.base <= prev < |log.full| && after.applied == log.applied
    ensures last == prev + |entries| < |after.full|
    ensures c == 0 ==> after.full == log.full && AllMatching(log, prev, entries)
    ensures c != 0 ==> OverwrittenFrom(log, after, prev, entries, c)
    ensures after.committed == if Min(commit, last) > log.committed then Min(commit, last) else log.committed
  {
    c := log.FindConflict(prev + 1, entries);
    log.ConflictInReach(prev, prevTerm, entries);
    log.FirstConflict(prev + 1, entries);
    if c == 0 {
      assert AllMatching(log, prev, entries);
      AllMatchingReach(log, prev, entries);
    } else {
      CutThere(log, prev, commit, entries, c, after, last);
    }
  }

  lemma CutThere(log: Log, prev: int, commit: int, entries: seq<Entry>, c: nat, after: Log, last: int)
    requires log.Valid() && log.base <= prev < c <= Min(|log.full|, last) && log.committed < c
    requires last == prev + |entries|
    requires after == log.Append(c, entries[c - (prev + 1)..]).CommitTo(Min(commit, last))
    ensures after.full == log.full[..c] + entries[c - (prev + 1)..] && |after.full| == last + 1
    ensures after.base == log.base && after.applied == log.applied
    ensures after.committed == if Min(commit, last) > log.committed then Min(commit, last) else log.committed
  {
  }

  predicate AllMatching(log: Log, prev: int, entries: seq<Entry>) {
    forall k {:trigger entries[k]} :: 0 <= k < |entries| ==> log.MatchLog(prev + 1 + k, entries[k].term)
  }

  lemma AllMatchingReach(log: Log, prev: int, entries: seq<Entry>)
    requires prev < |log.full| && AllMatching(log, prev, entries)
    ensures prev + |entries| <= log.LastIndex()
  {
    if entries != [] { assert log.MatchLog(prev + 1 + (|entries| - 1), entries[|entries| - 1].term); }
  }

  /** What an accepted message leaves: the log as it was, when it holds all entries, and otherwise
      the log overwritten from the first conflict, which lies above the commit index. */
  lemma AppendContract(log: Log, prev: int, prevTerm: int, commit: int, entries: seq<Entry>, after: Log, last: int)
    requires log.Valid() && log.MaybeAppend(prev, prevTerm, commit, entries) == Appended(after, last)
    ensures after.base == log.base && after.applied == log.applied && last == prev + |entries|
    ensures (after.full == log.full && AllMatching(log, prev, entries)) ||
            exists c :: OverwrittenFrom(log, after, prev, entries, c)
    ensures last < |after.full| && log.base <= prev
    ensures after.committed == if Min(commit, last) > log.committed then Min(commit, last) else log.committed
  {
    var c := AppendWhere(log, prev, prevTerm, commit, entries, after, last);
  }

  /** The log that takes the entries commits nothing but what it had committed and what they reach:
      the leader's commit index lies within that, or the log does, or it is cut off there. */
  predicate Vouched(log: Log, prev: int, entries: seq<Entry>, commit: int) {
    var upto := Max(log.committed, prev + |entries|);
    commit <= upto || log.LastIndex() <= upto || log.FindConflict(prev + 1, entries) != 0
  }

  /** How far the log then reaches: to the last new entry if it was cut, and as before if not. */
  lemma LengthAfter(log: Log, prev: int, prevTerm: int, commit: int, entries: seq<Entry>, after: Log, last: int)
    requires log.Valid() && log.MaybeAppend(prev, prevTerm, commit, entries) == Appended(after, last)
    ensures after.LastIndex() == if log.FindConflict(prev + 1, entries) != 0 then last else log.LastIndex()
  {
    log.ConflictInReach(prev, prevTerm, entries);
  }

  lemma OverwrittenAgrees(log: Log, after: Log, prev: int, entries: seq<Entry>, c: int)
    requires log.Valid() && TermsFrom(entries, 0) && OverwrittenFrom(log, after, prev, entries, c)
    requires after.base == log.base <= prev
    ensures forall k {:trigger entries[k]} :: 0 <= k < |entries| ==> after.MatchLog(prev + 1 + k, entries[k].term)
    ensures after.full[..log.committed + 1] == log.full[..log.committed + 1] && after.full[prev] == log.full[prev]
  {
    forall k | 0 <= k < |entries| ensures after.MatchLog(prev + 1 + k, entries[k].term) {
      if prev + 1 + k < c {
        assert log.MatchLog(prev + 1 + k, entries[k].term);
      } else {
        assert after.full[prev + 1 + k] == entries[k];
      }
    }
  }

  /** In particular: every carried index has the carried term afterwards, nothing committed is
      altered, and the commit index does not fall. */
  lemma AppendAgrees(log: Log, prev: int, prevTerm: int, commit: int, entries: seq<Entry>, after: Log, last: int)
    requires log.Valid() && TermsFrom(entries, 0)
    requires log.MaybeAppend(prev, prevTerm, commit, entries) == Appended(after, last)
    ensures after.Valid() && log.committed <= after.committed
    ensures forall k {:trigger entries[k]} :: 0 <= k < |entries| ==> after.MatchLog(prev + 1 + k, entries[k].term)
    ensures after.full[..log.committed + 1] == log.full[..log.committed + 1]
    ensures after.MatchLog(prev, prevTerm)
  {
    var c := AppendWhere(log, prev, prevTerm, commit, entries, after, last);
    if c != 0 { OverwrittenAgrees(log, after, prev, entries, c); }
  }

  /** The same message again changes nothing. */
  lemma AppendTwice(log: Log, prev: int, prevTerm: int, commit: int, entries: seq<Entry>, after: Log, last: int)
    requires log.Valid() && TermsFrom(entries, 0)
    requires log.MaybeAppend(prev, prevTerm, commit, entries) == Appended(after, last)
    ensures after.MaybeAppend(prev, prevTerm, commit, entries) == Appended(after, last)
  {
    AppendContract(log, prev, prevTerm, commit, entries, after, last);
    AppendAgrees(log, prev, prevTerm, commit, entries, after, last);
    AllMatch(after, prev + 1, entries);
  }

  lemma {:induction false} AllMatch(log: Log, start: int, entries: seq<Entry>)
    requires start > 0 && forall k {:trigger entries[k]} :: 0 <= k < |entries| ==>
             log.MatchLog(start + k, entries[k].term)
    ensures log.FindConflict(start, entries) == 0
    decreases |entries|
  {
    if entries != [] {
      assert log.MatchLog(start + 0, entries[0].term);
      forall k | 0 <= k < |entries| - 1 ensures log.MatchLog(start + 1 + k, entries[1..][k].term) {
        assert entries[1..][k] == entries[k + 1];
        assert log.MatchLog(start + (k + 1), entries[k + 1].term);
      }
      AllMatch(log, start + 1, entries[1..]);
    }
  }

  /** A message of the same leader that reaches no further than one already taken changes no entry. */
  lemma OlderMessage(log: Log, x: seq<Entry>, upto: int, prev: int, commit: int, entries: seq<Entry>)
    requires log.Valid() && 0 <= upto < |log.full| && upto < |x| && log.full[..upto + 1] == x[..upto + 1] &&
             TermsFrom(x, 0)
    requires log.base <= prev && prev + |entries| <= upto && entries == x[prev + 1..prev + 1 + |entries|]
    ensures log.MaybeAppend(prev, x[prev].term, commit, entries) ==
            Appended(log.CommitTo(Min(commit, prev + |entries|)), prev + |entries|)
  {
    forall i | 0 <= i <= upto ensures log.full[i] == x[i] {
      assert log.full[..upto + 1][i] == x[..upto + 1][i];
    }
    forall k | 0 <= k < |entries| ensures log.MatchLog(prev + 1 + k, entries[k].term) {
      assert entries[k] == x[prev + 1 + k];
    }
    AllMatch(log, prev + 1, entries);
  }

  /** The commit index moves up only, and only to an index of the log; the applied index moves up only, and only to
      one that is committed. Any other index moves nothing. */
  lemma IndicesMoveIff(log: Log, index: int)
    requires log.Valid()
    ensures log.CommitTo(index) ==
            if log.committed < index < |log.full| then log.(committed := index) else log
    ensures log.AppliedTo(index) ==
            if 0 < index && log.applied < index <= log.committed then log.(applied := index) else log
  {
  }

  // ----- compaction

  /** Compacting up to `i` hides nothing at or above `i`. */
  lemma CompactionKeeps(log: Log, i: int)
    requires log.Valid() && log.FirstIndex() <= i <= log.LastIndex()
    ensures log.Compact(i).Valid() && log.Compact(i).LastIndex() == log.LastIndex()
    ensures log.Compact(i).FirstIndex() == i + 1
    ensures forall j :: j >= i ==> log.Compact(i).Term(j) == log.Term(j)
    ensures forall j :: j < i ==> log.Compact(i).Term(j) == -1
    ensures log.Compact(i).LastTerm() == log.LastTerm()
    ensures forall index, term :: log.Compact(i).IsUpToDate(index, term) == log.IsUpToDate(index, term)
    ensures i <= log.applied ==> forall cap :: log.Compact(i).NextEntries(cap) == log.NextEntries(cap)
  {
  }

  function CompactOutcome(o: AppendOutcome, i: int): AppendOutcome {
    match o
    case Appended(log, last) => Appended(log.Compact(i), last)
    case _ => o
  }

  lemma {:induction false} ConflictCommutes(log: Log, i: int, start: int, entries: seq<Entry>)
    requires log.Valid() && log.FirstIndex() <= i <= log.LastIndex() && start > i
    ensures log.Compact(i).FindConflict(start, entries) == log.FindConflict(start, entries)
    decreases |entries|
  {
    if entries != [] { ConflictCommutes(log, i, start + 1, entries[1..]); }
  }

  lemma CommitToCommutes(log: Log, i: int, commit: int)
    requires log.FirstIndex() <= i <= log.LastIndex()
    ensures log.Compact(i).CommitTo(commit) == log.CommitTo(commit).Compact(i)
  {
  }

  lemma OverwriteCommutes(log: Log, i: int, c: nat, entries: seq<Entry>)
    requires log.FirstIndex() <= i < c <= |log.full|
    ensures log.Compact(i).Append(c, entries) == log.Append(c, entries).Compact(i)
    ensures log.Append(c, entries).FirstIndex() <= i <= log.Append(c, entries).LastIndex()
  {
  }

  /** Compaction of committed entries commutes with taking entries that start at or above it. */
  lemma CompactionCommutes(log: Log, i: int, prev: int, prevTerm: int, commit: int, entries: seq<Entry>)
    requires log.Valid() && log.FirstIndex() <= i <= log.committed && prev >= i && TermsFrom(entries, 0)
    ensures log.Compact(i).MaybeAppend(prev, prevTerm, commit, entries) ==
            CompactOutcome(log.MaybeAppend(prev, prevTerm, commit, entries), i)
  {
    assert log.Compact(i).MatchLog(prev, prevTerm) == log.MatchLog(prev, prevTerm);
    if log.MatchLog(prev, prevTerm) {
      ConflictCommutes(log, i, prev + 1, entries);
      log.ConflictInReach(prev, prevTerm, entries);
      var c, commitTo := log.FindConflict(prev + 1, entries), Min(commit, prev + |entries|);
      if c == 0 {
        CommitToCommutes(log, i, commitTo);
      } else if c > log.committed {
        CutCommutes(log, i, c, entries[c - (prev + 1)..], commitTo);
      }
    }
  }

  lemma CutCommutes(log: Log, i: int, c: nat, tail: seq<Entry>, commit: int)
    requires log.FirstIndex() <= i < c <= |log.full|
    ensures log.Compact(i).Append(c, tail).CommitTo(commit) == log.Append(c, tail).CommitTo(commit).Compact(i)
  {
    OverwriteCommutes(log, i, c, tail);
    CommitToCommutes(log.Append(c, tail), i, commit);
  }

  /** And with counting a majority. */
  lemma CommitCommutes(log: Log, i: int, index: int, term: int)
    requires log.Valid() && log.FirstIndex() <= i <= log.committed
    ensures log.Compact(i).MaybeCommit(index, term) == log.MaybeCommit(index, term).Compact(i)
  {
  }

  lemma {:induction false} ScanCommutes(log: Log, i: int, index: int, t: int)
    requires log.Valid() && log.FirstIndex() <= i <= log.LastIndex() && index >= i
    ensures log.Compact(i).ScanBack(index, t) == Max(log.ScanBack(index, t), i)
    decreases index
  {
    if index > i { ScanCommutes(log, i, index - 1, t); }
  }

  /** The hint is the one place where compaction shows: it does not reach below the snapshot index. */
  lemma HintAfterCompaction(log: Log, i: int, prev: int)
    requires log.Valid() && log.FirstIndex() <= i <= log.LastIndex() && prev > i
    ensures log.Compact(i).ConflictHint(prev) == Max(log.ConflictHint(prev), i)
  {
    if prev <= log.LastIndex() { ScanCommutes(log, i, prev - 1, log.Term(prev)); }
  }

  // ----- backtracking

  /** Consecutive rejections of one outstanding request each: the next index tried, and the
      follower's log, whatever it is by then. */
  ghost predicate Rejections(next: seq<int>, logs: seq<Log>) {
    && |next| == |logs| + 1
    && forall k {:trigger logs[k]} :: 0 <= k < |logs| ==>
         logs[k].Valid() && logs[k].base < next[k] && next[k + 1] == logs[k].ConflictHint(next[k] - 1) > 0
  }

  /** Every rejection with a usable hint lowers the next index; so there are fewer of them than
      the index the leader started from. */
  lemma {:induction false} BacktrackingEnds(next: seq<int>, logs: seq<Log>)
    requires Rejections(next, logs) && next[0] > 0
    ensures forall k {:trigger logs[k]} :: 0 <= k < |logs| ==> next[k + 1] < next[k]
    ensures |logs| < next[0]
    decreases |logs|
  {
    if logs != [] {
      assert next[1] == logs[0].ConflictHint(next[0] - 1);
      assert next[1] < next[0];
      forall k | 0 <= k < |logs[1..]| ensures logs[1..][k] == logs[k + 1] && next[1..][k + 1] == next[k + 2] {}
      BacktrackingEnds(next[1..], logs[1..]);
      forall k | 0 <= k < |logs| ensures next[k + 1] < next[k] {
        if k > 0 { assert logs[1..][k - 1] == logs[k]; }
      }
    }
  }

  /** What a hint within the log skips all has the term of the rejected index. */
  lemma HintSkipsOneTerm(log: Log, prev: int)
    requires log.Valid() && log.base <= prev <= log.LastIndex()
    ensures var h := log.ConflictHint(prev);
            h < prev && (forall j :: h < j < prev ==> log.Term(j) == log.Term(prev)) &&
            (h >= log.FirstIndex() ==> log.Term(h) != log.Term(prev))
  {
  }
}
