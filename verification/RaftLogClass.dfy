/** `RaftLog` as it is: a vector of indexed entries that is extended, overwritten and erased
    in place.  The ghost field `full` remembers the whole log, and every method is proved
    to do to `Abs()`, which is that whole log, what `RaftLogSpec` says; so a log that has
    forgotten everything up to its last snapshot cannot be told from one that has not.
*/
module RaftLogClass {
  import opened Endings
  import opened RaftLogSpec

  /** `Entry` with its index, as stored and sent. */
  datatype Indexed = Indexed(index: int, term: int, data: string)

  /** "The indices of the entries must keep rising": they follow one another from `start`. */
  predicate Contiguous(entries: seq<Indexed>, start: int) {
    forall k :: 0 <= k < |entries| ==> entries[k].index == start + k
  }

  /** `entries` are the end of the log `full`; the first of them is the dummy, whose data is gone. */
  ghost predicate Retains(entries: seq<Indexed>, full: seq<Entry>) {
    && |entries| > 0 && entries[0].index >= 0
    && entries[0].index + |entries| == |full|
    && Contiguous(entries, entries[0].index)
    && entries[0].term == full[entries[0].index].term
    && (forall k :: 0 < k < |entries| ==> Entry(entries[k].term, entries[k].data) == full[entries[0].index + k])
  }

  function Bare(entries: seq<Indexed>): (r: seq<Entry>)
    ensures |r| == |entries|
    ensures forall k :: 0 <= k < |r| ==> r[k] == Entry(entries[k].term, entries[k].data)
  {
    seq(|entries|, k requires 0 <= k < |entries| => Entry(entries[k].term, entries[k].data))
  }

  lemma BareTail(es: seq<Indexed>, i: nat)
    requires i <= |es|
    ensures Bare(es[i..]) == Bare(es)[i..]
  {
  }

  /** How `maybeAppend` goes on once the previous entry matches and `c` is the conflict. */
  lemma AfterMatch(log: Log, prev: int, prevTerm: int, commit: int, es: seq<Entry>, c: int)
    requires log.MatchLog(prev, prevTerm) && c == log.FindConflict(prev + 1, es)
    ensures c == 0 || prev < c <= Min(|log.full|, prev + |es|)
    ensures log.MaybeAppend(prev, prevTerm, commit, es) ==
            if c == 0 then Appended(log.CommitTo(Min(commit, prev + |es|)), prev + |es|)
            else if c <= log.committed then Fatal
            else Appended(log.Append(c, es[c - (prev + 1)..]).CommitTo(Min(commit, prev + |es|)), prev + |es|)
  {
    log.ConflictInReach(prev, prevTerm, es);
  }

  /** One turn of the loop in `findConflict`. */
  lemma ConflictStep(log: Log, start: int, es: seq<Entry>, i: nat)
    requires start > 0 && i < |es|
    ensures log.FindConflict(start + i, es[i..]) ==
            if !log.MatchLog(start + i, es[i].term) then start + i else log.FindConflict(start + i + 1, es[i + 1..])
  {
    assert es[i..][1..] == es[i + 1..];
  }

  class RaftLog {
    var entries: seq<Indexed>
    var committed: nat
    var applied: nat
    const maxNextEntriesSize: nat
    ghost var full: seq<Entry>

    ghost predicate Valid()
      reads this
    {
      Retains(entries, full) && committed < |full|
    }

    ghost function Abs(): Log
      reads this
      requires Valid()
    {
      Log(full, entries[0].index, committed, applied)
    }

    /** A log with nothing persisted. */
    constructor (maxNextEntriesSize: nat)
      ensures Valid() && Abs() == Log([DUMMY], 0, 0, 0)
      ensures this.maxNextEntriesSize == maxNextEntriesSize
    {
      entries := [Indexed(0, 0, "")];
      committed, applied := 0, 0;
      this.maxNextEntriesSize := maxNextEntriesSize;
      full := [DUMMY];
    }

    /** A log read back from what was persisted. */
    constructor Load(saved: seq<Indexed>, commit: nat, ghost whole: seq<Entry>, maxNextEntriesSize: nat)
      requires Retains(saved, whole) && commit < |whole|
      ensures Valid() && Abs() == Log(whole, saved[0].index, commit, saved[0].index)
      ensures this.maxNextEntriesSize == maxNextEntriesSize
    {
      entries, committed, applied := saved, commit, saved[0].index;
      this.maxNextEntriesSize := maxNextEntriesSize;
      full := whole;
    }

    function FirstIndex(): (i: int)
      reads this
      requires Valid()
      ensures i == Abs().FirstIndex()
    {
      entries[0].index + 1
    }

    function LastIndex(): (i: int)
      reads this
      requires Valid()
      ensures i == Abs().LastIndex()
    {
      entries[0].index + |entries| - 1
    }

    function LastSnapshotIndex(): (i: int)
      reads this
      requires Valid()
      ensures i == Abs().base
    {
      entries[0].index
    }

    function Term(index: int): (t: int)
      reads this
      requires Valid()
      ensures t == Abs().Term(index)
    {
      var offset := entries[0].index;
      if index < offset then -1
      else if index - offset >= |entries| then -1
      else entries[index - offset].term
    }

    function LastTerm(): (t: int)
      reads this
      requires Valid()
      ensures t == Abs().LastTerm()
    {
      Term(LastIndex())
    }

    predicate IsUpToDate(index: int, term: int)
      reads this
      requires Valid()
      ensures IsUpToDate(index, term) == Abs().IsUpToDate(index, term)
    {
      term > LastTerm() || (term == LastTerm() && index >= LastIndex())
    }

    predicate MatchLog(index: int, term: int)
      reads this
      requires Valid()
      ensures MatchLog(index, term) == Abs().MatchLog(index, term)
    {
      var t := Term(index);
      if t < 0 then false else t == term
    }

    predicate HasNextEntries()
      reads this
      requires Valid()
      ensures HasNextEntries() == Abs().HasNextEntries()
    {
      committed + 1 > Max(applied + 1, FirstIndex())
    }

    /** `findConflict(entries)`. */
    method FindConflict(es: seq<Indexed>, start: int) returns (c: int)
      requires Valid() && start > 0 && Contiguous(es, start)
      ensures c == Abs().FindConflict(start, Bare(es))
    {
      ghost var log, bare := Abs(), Bare(es);
      assert bare[0..] == bare;
      var i := 0;
      while i < |es|
        invariant 0 <= i <= |es| == |bare|
        invariant log.FindConflict(start, bare) == log.FindConflict(start + i, bare[i..])
      {
        ConflictStep(log, start, bare, i);
        if !MatchLog(es[i].index, es[i].term) {
          return es[i].index;
        }
        i := i + 1;
      }
      c := 0;
    }

    /** `findConflict(prevLogIndex, prevLogTerm)`, comparing terms as its comment says. */
    method FindConflictHint(prevLogIndex: int) returns (c: int)
      requires Valid()
      ensures c == Abs().ConflictHint(prevLogIndex)
    {
      var last := LastIndex();
      if prevLogIndex > last {
        return last + 1;
      }
      var first := FirstIndex();
      var conflictTerm := Term(prevLogIndex);
      var index := prevLogIndex - 1;
      while index >= first && Term(index) == conflictTerm
        invariant Abs().ScanBack(prevLogIndex - 1, conflictTerm) == Abs().ScanBack(index, conflictTerm)
      {
        index := index - 1;
      }
      c := index;
    }

    method CommitTo(commit: int)
      requires Valid()
      modifies this
      ensures Valid() && Abs() == old(Abs()).CommitTo(commit)
    {
      if committed < commit {
        if LastIndex() < commit {
          return;
        }
        committed := commit;
      }
    }

    method AppliedTo(index: int)
      requires Valid()
      modifies this
      ensures Valid() && Abs() == old(Abs()).AppliedTo(index)
    {
      if index == 0 {
        return;
      }
      if committed < index || index < applied {
        return;
      }
      applied := index;
    }

    /** `append(entries)`.  An index at or below the commit index ends the process. */
    method Append(es: seq<Indexed>) returns (ending: Ending)
      requires Valid() && (es != [] ==> 0 <= es[0].index <= Abs().LastIndex() + 1 && Contiguous(es, es[0].index))
      modifies this
      ensures Valid()
      ensures ending == if es != [] && es[0].index - 1 < old(committed) then Exited else Returned
      ensures Abs() == if es == [] || ending == Exited then old(Abs()) else old(Abs()).Append(es[0].index, Bare(es))
    {
      if es == [] {
        return Returned;
      }
      var after := es[0].index;
      if after - 1 < committed {
        return Exited;
      }
      ghost var was := entries;
      if after == LastIndex() + 1 {
        entries := entries + es;
      } else if after <= entries[0].index {
        entries := es;
      } else {
        var offset := after - entries[0].index;
        entries := entries[..offset] + es;
      }
      full := full[..after] + Bare(es);
      ending := Returned;
    }

    /** `append(entry)`. */
    method Push(entry: Indexed)
      requires Valid() && entry.index == Abs().LastIndex() + 1
      modifies this
      ensures Valid() && Abs() == old(Abs()).(full := old(full) + [Entry(entry.term, entry.data)])
    {
      entries := entries + [entry];
      full := full + [Entry(entry.term, entry.data)];
    }

    method MaybeAppend(prevLogIndex: int, prevLogTerm: int, commit: int, es: seq<Indexed>)
      returns (last: int, ending: Ending)
      requires Valid() && Contiguous(es, prevLogIndex + 1)
      modifies this
      ensures Valid()
      ensures match old(Abs()).MaybeAppend(prevLogIndex, prevLogTerm, commit, Bare(es))
              case NoMatch => last == -1 && ending == Returned && Abs() == old(Abs())
              case Fatal => ending == Exited && Abs() == old(Abs())
              case Appended(log, l) => last == l && ending == Returned && Abs() == log
    {
      if MatchLog(prevLogIndex, prevLogTerm) {
        last := prevLogIndex + |es|;
        var conflictIndex := FindConflict(es, prevLogIndex + 1);
        AfterMatch(Abs(), prevLogIndex, prevLogTerm, commit, Bare(es), conflictIndex);
        if conflictIndex != 0 && conflictIndex <= committed {
          return last, Exited;
        }
        Accept(conflictIndex, prevLogIndex, commit, es);
        return last, Returned;
      }
      return -1, Returned;
    }

    /** The rest of `maybeAppend`, with the conflict above the commit index. */
    method Accept(conflictIndex: int, prevLogIndex: int, commit: int, es: seq<Indexed>)
      requires Valid() && Contiguous(es, prevLogIndex + 1) && 0 <= prevLogIndex
      requires conflictIndex == 0 ||
               (committed < conflictIndex && prevLogIndex < conflictIndex <= Min(|full|, prevLogIndex + |es|))
      modifies this
      ensures Valid()
      ensures Abs() == (if conflictIndex == 0 then old(Abs())
                        else old(Abs()).Append(conflictIndex, Bare(es)[conflictIndex - (prevLogIndex + 1)..]))
                       .CommitTo(Min(commit, prevLogIndex + |es|))
    {
      if conflictIndex != 0 {
        var off := prevLogIndex + 1;
        BareTail(es, conflictIndex - off);
        var tail := es[conflictIndex - off..];
        ghost var log := Abs();
        var ending := Append(tail);
        assert Abs() == log.Append(conflictIndex, Bare(tail));
      }
      CommitTo(Min(commit, prevLogIndex + |es|));
    }

    method MaybeCommit(maxIndex: int, term: int) returns (advanced: bool)
      requires Valid()
      modifies this
      ensures Valid() && Abs() == old(Abs()).MaybeCommit(maxIndex, term)
      ensures advanced <==> maxIndex > old(committed) && old(Abs()).Term(maxIndex) == term
    {
      if maxIndex > committed && Term(maxIndex) == term {
        CommitTo(maxIndex);
        return true;
      }
      return false;
    }

    /** `slice(low, high, maxSize)`; asking for what is not retained ends the process. */
    method Slice(low: int, high: int, maxSize: nat) returns (r: seq<Indexed>, ending: Ending)
      requires Valid()
      ensures ending == Exited <==> low > high - 1 || low < Abs().FirstIndex() || high - 1 > Abs().LastIndex()
      ensures Bare(r) == Abs().Slice(low, high, maxSize)
      ensures Contiguous(r, low)
    {
      if low > high - 1 || low < FirstIndex() || high - 1 > LastIndex() {
        return [], Exited;
      }
      var end := high;
      if maxSize != NO_LIMIT {
        end := Min(high, low + maxSize);
      }
      var offset := LastSnapshotIndex();
      r := entries[low - offset..end - offset];
      ending := Returned;
    }

    /** `nextEntries()`. */
    method NextEntries() returns (r: seq<Indexed>)
      requires Valid()
      ensures Bare(r) == Abs().NextEntries(maxNextEntriesSize)
      ensures Contiguous(r, Abs().NextOffset())
    {
      var offset := Max(applied + 1, FirstIndex());
      if committed + 1 > offset {
        var ending;
        r, ending := Slice(offset, committed + 1, maxNextEntriesSize);
      } else {
        r := [];
      }
    }

    /** `entries(index)`. */
    method EntriesFrom(index: int) returns (r: seq<Indexed>, ending: Ending)
      requires Valid()
      ensures ending == Exited <==> index < Abs().FirstIndex()
      ensures Bare(r) == Abs().Suffix(index, maxNextEntriesSize)
      ensures Contiguous(r, index)
    {
      if index > LastIndex() {
        return [], Returned;
      }
      r, ending := Slice(index, LastIndex() + 1, maxNextEntriesSize);
    }

    /** `clearEntries(index, term)`: one dummy that stands for the installed snapshot `snap`. */
    method ClearEntries(index: nat, term: int, ghost snap: Snapshot)
      requires Valid() && snap.index == index && snap.term == term
      requires |snap.prefix| == index + 1 && snap.prefix[index].term == term && committed <= index
      modifies this
      ensures Valid() && Abs() == old(Abs()).Clear(snap)
    {
      entries := [Indexed(index, term, "")];
      full := snap.prefix;
    }

    /** `createSnapshot(index, data)`: the metadata of a snapshot, if the index may be compacted. */
    method CreateSnapshot(index: int) returns (ok: bool, term: int)
      requires Valid()
      ensures ok == Abs().CanSnapshot(index)
      ensures ok ==> term == Abs().Term(index)
    {
      if index < FirstIndex() || index > committed || index > LastIndex() {
        return false, 0;
      }
      return true, Term(index);
    }

    method Compact(compactIndex: int) returns (done: bool)
      requires Valid()
      modifies this
      ensures Valid() && Abs() == old(Abs()).Compact(compactIndex)
      ensures done <==> old(Abs()).FirstIndex() <= compactIndex <= old(Abs()).LastIndex()
    {
      var offset := FirstIndex();
      if compactIndex < FirstIndex() {
        return false;
      }
      if compactIndex > LastIndex() {
        return false;
      }
      var index := compactIndex - offset + 1;
      entries := entries[index..];
      entries := entries[0 := entries[0].(data := "")];
      return true;
    }
  }
}
