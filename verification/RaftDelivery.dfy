/** The applier loop: what reaches the state machine, in what order.

    One round reads a batch under the lock, sends it with the lock released, and takes the
    lock again to mark everything up to the commit index it had seen as applied, even when
    the batch was cut at the size limit.  Between the two halves the log may grow, commit
    and be compacted, up to the commit index the round has seen: the server takes a message and
    may save a snapshot at its index before the round has marked it as applied.
*/
module RaftDelivery {
  import opened RaftLogSpec
  import opened RaftLogLaws

  /** `pending` is the commit index seen by the round under way, if there is one. */
  datatype Applier = Applier(log: Log, busy: bool, pending: nat, delivered: seq<Entry>)

  datatype Step =
    | Take
    | Finish
    | Receive(prev: int, prevTerm: int, commit: int, entries: seq<Entry>)
    | Push(entry: Entry)
    | Commit(index: int)
    | CompactReached(upto: nat)

  /** Up to where the state machine is meant to have received entries. */
  function Reached(a: Applier): nat {
    if a.busy then a.pending else a.log.applied
  }

  function Next(a: Applier, step: Step, cap: nat): Applier {
    match step
    case Take =>
      if a.busy || !a.log.HasNextEntries() then a
      else a.(busy := true, pending := a.log.committed, delivered := a.delivered + a.log.NextEntries(cap))
    case Finish =>
      if !a.busy then a else a.(busy := false, log := a.log.AppliedTo(Max(a.log.applied, a.pending)))
    case Receive(prev, prevTerm, commit, entries) =>
      (match a.log.MaybeAppend(prev, prevTerm, commit, entries)
       case Appended(log, _) => a.(log := log)
       case _ => a)
    case Push(entry) => a.(log := a.log.(full := a.log.full + [entry]))
    case Commit(index) => a.(log := a.log.CommitTo(index))
    case CompactReached(upto) => if upto <= Reached(a) then a.(log := a.log.Compact(upto)) else a
  }

  function Run(log: Log, steps: seq<Step>, cap: nat): Applier {
    if steps == [] then Applier(log, false, 0, [])
    else Next(Run(log, steps[..|steps| - 1], cap), steps[|steps| - 1], cap)
  }

  /** The batch of a round reaches the commit index it is going to mark. */
  predicate WholeBatch(a: Applier, step: Step, cap: nat) {
    step.Take? && !a.busy && a.log.HasNextEntries() ==> cap == NO_LIMIT || a.log.committed - a.log.applied <= cap
  }

  predicate WholeBatches(log: Log, steps: seq<Step>, cap: nat) {
    steps == [] ||
    (WholeBatches(log, steps[..|steps| - 1], cap) &&
     WholeBatch(Run(log, steps[..|steps| - 1], cap), steps[|steps| - 1], cap))
  }

  predicate Ready(log: Log) {
    log.Valid() && log.base <= log.applied <= log.committed
  }

  predicate Inv(a: Applier, start: nat) {
    && a.log.Valid() && a.log.base <= Reached(a)
    && start <= a.log.applied <= Reached(a) <= a.log.committed
    && (a.busy ==> a.pending > 0)
    && |a.delivered| <= Reached(a) - start
  }

  predicate GapFree(a: Applier, start: nat)
    requires Inv(a, start)
  {
    a.delivered == a.log.full[start + 1..Reached(a) + 1]
  }

  lemma TakeDelivers(a: Applier, cap: nat, start: nat)
    requires Inv(a, start)
    ensures Inv(Next(a, Take, cap), start)
    ensures GapFree(a, start) && WholeBatch(a, Take, cap) ==> GapFree(Next(a, Take, cap), start)
    ensures |a.delivered| < Reached(a) - start || !WholeBatch(a, Take, cap) ==>
              |Next(a, Take, cap).delivered| < Reached(Next(a, Take, cap)) - start
  {
  }

  /** No step but a cut batch opens a gap, and no step closes one. */
  lemma StepDelivers(a: Applier, step: Step, cap: nat, start: nat)
    requires Inv(a, start)
    ensures Inv(Next(a, step, cap), start)
    ensures GapFree(a, start) && WholeBatch(a, step, cap) ==> GapFree(Next(a, step, cap), start)
    ensures |a.delivered| < Reached(a) - start || !WholeBatch(a, step, cap) ==>
              |Next(a, step, cap).delivered| < Reached(Next(a, step, cap)) - start
  {
    match step
    case Take => TakeDelivers(a, cap, start);
    case Receive(prev, prevTerm, commit, entries) =>
      if a.log.MaybeAppend(prev, prevTerm, commit, entries).Appended? {
        ReceiveDelivers(a, prev, prevTerm, commit, entries, start);
      }
    case _ =>
  }

  lemma ReceiveDelivers(a: Applier, prev: int, prevTerm: int, commit: int, entries: seq<Entry>, start: nat)
    requires Inv(a, start) && a.log.MaybeAppend(prev, prevTerm, commit, entries).Appended?
    ensures var b := a.(log := a.log.MaybeAppend(prev, prevTerm, commit, entries).log);
            Inv(b, start) && Reached(b) == Reached(a) && (GapFree(a, start) ==> GapFree(b, start))
  {
    var Appended(after, last) := a.log.MaybeAppend(prev, prevTerm, commit, entries);
    AppendContract(a.log, prev, prevTerm, commit, entries, after, last);
    if after.full != a.log.full {
      var c :| OverwrittenFrom(a.log, after, prev, entries, c);
      assert after.full[start + 1..Reached(a) + 1] == a.log.full[start + 1..Reached(a) + 1];
    }
  }

  /** What had been applied when the run began stays as it was. */
  lemma {:induction false} AppliedStays(log: Log, steps: seq<Step>, cap: nat)
    requires Ready(log)
    ensures var a := Run(log, steps, cap);
            Inv(a, log.applied) && a.log.full[..log.applied + 1] == log.full[..log.applied + 1]
  {
    if steps != [] {
      var a, step := Run(log, steps[..|steps| - 1], cap), steps[|steps| - 1];
      AppliedStays(log, steps[..|steps| - 1], cap);
      StepDelivers(a, step, cap, log.applied);
      StepKeepsApplied(a, step, cap, log.applied);
    }
  }

  lemma StepKeepsApplied(a: Applier, step: Step, cap: nat, start: nat)
    requires Inv(a, start)
    ensures start < |Next(a, step, cap).log.full| && Next(a, step, cap).log.full[..start + 1] == a.log.full[..start + 1]
  {
    if step.Receive? && a.log.MaybeAppend(step.prev, step.prevTerm, step.commit, step.entries).Appended? {
      var Appended(after, last) := a.log.MaybeAppend(step.prev, step.prevTerm, step.commit, step.entries);
      AppendContract(a.log, step.prev, step.prevTerm, step.commit, step.entries, after, last);
      if after.full != a.log.full {
        var c :| OverwrittenFrom(a.log, after, step.prev, step.entries, c);
      }
    }
  }

  /** Applied never passes committed; and the batches delivered so far, put together, are exactly
      the committed entries in index order, each once, if and only if no batch was cut short. */
  lemma {:induction false} InOrderWithoutGaps(log: Log, steps: seq<Step>, cap: nat)
    requires Ready(log)
    ensures var a := Run(log, steps, cap);
            Inv(a, log.applied) &&
            (WholeBatches(log, steps, cap) ==> GapFree(a, log.applied)) &&
            (!WholeBatches(log, steps, cap) ==> |a.delivered| < Reached(a) - log.applied)
    ensures WholeBatches(log, steps, cap) <==>
              Run(log, steps, cap).delivered ==
              Run(log, steps, cap).log.full[log.applied + 1..Reached(Run(log, steps, cap)) + 1]
  {
    if steps != [] {
      InOrderWithoutGaps(log, steps[..|steps| - 1], cap);
      StepDelivers(Run(log, steps[..|steps| - 1], cap), steps[|steps| - 1], cap, log.applied);
    }
  }

  /** What is committed and not applied, as far as the limit lets it; of a log that begins behind what has been
      applied, after a snapshot, what it still has. */
  function Due(log: Log, cap: nat): seq<Entry>
    requires log.Valid()
  {
    var from := Max(log.applied, log.base) + 1;
    if log.committed < from then []
    else log.full[from..if cap == NO_LIMIT then log.committed + 1 else Min(log.committed + 1, from + cap)]
  }

  lemma BatchIsDue(log: Log, cap: nat)
    requires log.Valid()
    ensures log.NextEntries(cap) == Due(log, cap)
    ensures log.HasNextEntries() <==> Max(log.applied, log.base) < log.committed
  {
  }

  lemma TakeThenFinish(log: Log, cap: nat)
    requires log.Valid() && log.applied <= log.committed
    ensures var a := Next(Next(Applier(log, false, 0, []), Take, cap), Finish, cap);
      && !a.busy && a.delivered == [] + log.NextEntries(cap)
      && a.log == if log.base < log.committed then log.(applied := log.committed) else log
  {
    BatchIsDue(log, cap);
  }

  /** One round of the applier hands on what is committed and not yet applied, as far as the limit lets it, and
      marks all of it as applied; a second one finds nothing to do. */
  lemma OneRoundDelivers(log: Log, cap: nat)
    requires log.Valid() && log.applied <= log.committed
    ensures var a := Run(log, [Take, Finish], cap);
      && a.delivered == Due(log, cap) && !a.busy && Next(a, Take, cap) == a
      && a.log == if log.base < log.committed then log.(applied := log.committed) else log
  {
    TwoSteps(log, cap);
    TakeThenFinish(log, cap);
    BatchIsDue(log, cap);
    BatchIsDue(log.(applied := log.committed), cap);
  }

  lemma TwoSteps(log: Log, cap: nat)
    ensures Run(log, [Take, Finish], cap) == Next(Next(Applier(log, false, 0, []), Take, cap), Finish, cap)
  {
    assert [Take, Finish][..1] == [Take] && [Take][..0] == [];
    assert Run(log, [Take], cap) == Next(Run(log, [], cap), Take, cap);
  }
}
