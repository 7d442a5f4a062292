/** The replicated log as a value.

    `RaftLog` keeps only the entries after the last snapshot.  This model keeps the whole
    log in `full`, where the entry with index i is `full[i]` and `full[0]` is the dummy that
    every log starts with, together with the index `base` of the last compacted entry.
    Every operation below looks at `full[base..]` only, as the code does;
    `RaftLogClass` proves that a log which has really erased the rest behaves the same.
*/
module RaftLogSpec {

  datatype Entry = Entry(term: int, data: string)

  const DUMMY: Entry := Entry(0, "")

  /** `RaftLog::NO_LIMIT`. */
  const NO_LIMIT: nat := 0x7fff_ffff_ffff_ffff

  /** A snapshot: its metadata and, in place of the state it stores, the log prefix whose
      commands that state folds. */
  datatype Snapshot = Snapshot(index: nat, term: int, prefix: seq<Entry>)

  /** How `maybeAppend` ends: no match, `exit(EXIT_FAILURE)`, or the log and the last new index. */
  datatype AppendOutcome = NoMatch | Fatal | Appended(log: Log, last: int)

  function Min(a: int, b: int): int { if a <= b then a else b }
  function Max(a: int, b: int): int { if a <= b then b else a }

  datatype Log = Log(full: seq<Entry>, base: nat, committed: nat, applied: nat) {

    predicate Valid() {
      base < |full| && committed < |full|
    }

    function FirstIndex(): int { base + 1 }

    function LastIndex(): int { |full| - 1 }

    function Term(i: int): int {
      if i < base || i >= |full| then -1 else full[i].term
    }

    function LastTerm(): int { Term(LastIndex()) }

    predicate MatchLog(i: int, t: int) {
      Term(i) >= 0 && Term(i) == t
    }

    predicate IsUpToDate(index: int, term: int) {
      term > LastTerm() || (term == LastTerm() && index >= LastIndex())
    }

    /** The index of the first of `entries`, which start at `start`, that this log does not
        hold; 0 if it holds them all. */
    function FindConflict(start: int, entries: seq<Entry>): int
      decreases |entries|
    {
      if entries == [] then 0
      else if !MatchLog(start, entries[0].term) then start
      else FindConflict(start + 1, entries[1..])
    }

    /** All that `findConflict` passes over matches, and what it stops at does not. */
    lemma {:induction false} FirstConflict(start: int, entries: seq<Entry>)
      requires start > 0
      ensures var c := FindConflict(start, entries);
        && (c == 0 || start <= c < start + |entries|)
        && (forall k {:trigger entries[k]} :: 0 <= k < |entries| && (c == 0 || start + k < c) ==>
            MatchLog(start + k, entries[k].term))
        && (c != 0 ==> !MatchLog(c, entries[c - start].term))
      decreases |entries|
    {
      if entries != [] && MatchLog(start, entries[0].term) {
        FirstConflict(start + 1, entries[1..]);
        forall k | 1 <= k < |entries| ensures entries[k] == entries[1..][k - 1] {}
      }
    }

    /** A conflict is at most one past the end of a log that matches just before the entries. */
    lemma ConflictInReach(prev: int, prevTerm: int, entries: seq<Entry>)
      requires MatchLog(prev, prevTerm)
      ensures FindConflict(prev + 1, entries) == 0 ||
              prev < FindConflict(prev + 1, entries) <= Min(|full|, prev + |entries|)
    {
      FirstConflict(prev + 1, entries);
      var c := FindConflict(prev + 1, entries);
      if c > prev + 1 {
        assert MatchLog(prev + 1 + (c - prev - 2), entries[c - prev - 2].term);
      }
    }

    /** Walks down from `index` while the term is `t`; `findConflict(prevLogIndex, prevLogTerm)`. */
    function ScanBack(index: int, t: int): (r: int)
      ensures r <= index
      ensures index >= base ==> r >= base
      ensures forall j :: r < j <= index ==> j >= FirstIndex() && Term(j) == t
      ensures r >= FirstIndex() ==> Term(r) != t
      decreases index
    {
      if index >= FirstIndex() && Term(index) == t then ScanBack(index - 1, t) else index
    }

    function ConflictHint(prev: int): int {
      if prev > LastIndex() then LastIndex() + 1 else ScanBack(prev - 1, Term(prev))
    }

    /** `append(entries)`: the new entries, the first of which has index `after`, overwrite the
        overlap; at or below the snapshot index they replace the whole retained log. */
    function Append(after: nat, entries: seq<Entry>): Log
      requires after <= |full|
    {
      if entries == [] then this
      else this.(full := full[..after] + entries, base := if after <= base then after else base)
    }

    function CommitTo(commit: int): Log {
      if committed < commit && commit <= LastIndex() then this.(committed := commit) else this
    }

    function AppliedTo(index: int): Log {
      if index == 0 || committed < index || index < applied then this else this.(applied := index)
    }

    function MaybeAppend(prev: int, prevTerm: int, commit: int, entries: seq<Entry>): AppendOutcome {
      if !MatchLog(prev, prevTerm) then NoMatch
      else
        var last := prev + |entries|;
        var c := FindConflict(prev + 1, entries);
        ConflictInReach(prev, prevTerm, entries);
        if c == 0 then Appended(CommitTo(Min(commit, last)), last)
        else if c <= committed then Fatal
        else
          Appended(Append(c, entries[c - (prev + 1)..]).CommitTo(Min(commit, last)), last)
    }

    function MaybeCommit(maxIndex: int, term: int): Log {
      if maxIndex > committed && Term(maxIndex) == term then CommitTo(maxIndex) else this
    }

    /** `slice(low, high, maxSize)`; out of bounds ends the process, here the empty answer. */
    function Slice(low: int, high: int, cap: nat): seq<Entry> {
      if low > high - 1 || low < FirstIndex() || high - 1 > LastIndex() then []
      else full[low..if cap != NO_LIMIT then Min(high, low + cap) else high]
    }

    /** `entries(index)`. */
    function Suffix(index: int, cap: nat): seq<Entry> {
      if index > LastIndex() then [] else Slice(index, LastIndex() + 1, cap)
    }

    function NextOffset(): int { Max(applied + 1, FirstIndex()) }

    predicate HasNextEntries() { committed + 1 > NextOffset() }

    function NextEntries(cap: nat): seq<Entry> {
      if HasNextEntries() then Slice(NextOffset(), committed + 1, cap) else []
    }

    /** Whether `createSnapshot(index, ...)` answers a snapshot. */
    predicate CanSnapshot(index: int) {
      FirstIndex() <= index <= committed && index <= LastIndex()
    }

    function Compact(index: int): Log {
      if index < FirstIndex() || index > LastIndex() then this else this.(base := index)
    }

    /** `clearEntries(index, term)` on installing `snap`. */
    function Clear(snap: Snapshot): Log {
      this.(full := snap.prefix, base := snap.index)
    }
  }
}
