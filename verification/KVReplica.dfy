/** The applier of `KVServer` as steps over the messages that Raft delivers, and what any two
    servers that follow the same committed log have in common. */
module KVReplica {
  import opened Options
  import opened KVMachine
  import opened KVSnapshot

  datatype ApplyMsg =
    | EntryMsg(index: int, term: int, data: Bytes)
    | SnapshotMsg(index: int, term: int, data: Bytes)

  datatype Server = Server(machine: Machine, lastApplied: int)

  /** One round of the applier loop, with the response it has for a waiting client; nothing where
      the process ends. */
  function Handle(s: Server, m: ApplyMsg): Option<(Server, Option<Response>)> {
    match m
    case SnapshotMsg(index, _, data) => Some((Server(ReadSnapshot(data), index), None))
    case EntryMsg(index, _, data) =>
      if data == [] || index <= s.lastApplied then Some((s, None))
      else
        match StepEntry(s.machine, data)
        case None => None
        case Some((m', response)) => Some((Server(m', index), response))
  }

  /** The same with the message type assigned where it should be compared: the value of ENTRY is 0, so
      an entry takes the branch of unknown types, where the process ends. */
  function HandleAsWritten(s: Server, m: ApplyMsg): Option<(Server, Option<Response>)> {
    match m
    case SnapshotMsg(_, _, _) => Handle(s, m)
    case EntryMsg(_, _, _) => None
  }

  /** Data on which the process should end: no request, or a new one with an unknown operation. */
  predicate Unservable(last: map<int, (int, Response)>, data: Bytes) {
    match Parse(data)
    case None => true
    case Some(r) => !(GET <= r.op <= CLEAR) && !IsDuplicate(last, r)
  }

  /** It serves snapshots alone: an entry is handled right only if it is new and cannot be served. */
  lemma EntryTypeAsWrittenIff(s: Server, m: ApplyMsg)
    ensures HandleAsWritten(s, m) == Handle(s, m) <==>
            m.SnapshotMsg? || (m.data != [] && m.index > s.lastApplied && Unservable(s.machine.last, m.data))
  {
    if m.EntryMsg? && Parse(m.data).Some? {
      var r := Parse(m.data).value;
      assert Execute(s.machine.data, r).None? <==> !(GET <= r.op <= CLEAR);
    }
  }

  function HandleAll(s: Server, ms: seq<ApplyMsg>): Option<Server>
    decreases |ms|
  {
    if ms == [] then Some(s)
    else
      match Handle(s, ms[0])
      case None => None
      case Some((s', _)) => HandleAll(s', ms[1..])
  }

  // ----- messages in index order

  /** What may come next to a server that has been given the committed `log` up to `position`:
      the next entry, an entry from behind a snapshot that has overtaken it, or a snapshot of
      the log up to some later index.  Nothing comes from before `floor`, where the server was
      started. */
  ghost predicate Fits(log: seq<Bytes>, floor: int, position: int, m: ApplyMsg) {
    && 0 <= floor <= position < |log|
    && match m
       case EntryMsg(i, _, data) => floor < i <= position + 1 && i < |log| && data == log[i]
       case SnapshotMsg(i, _, data) =>
         position <= i < |log| && Fold(log[..i + 1]).Some? && IsSnapshot(data, Fold(log[..i + 1]).value)
  }

  function After(position: int, m: ApplyMsg): int {
    if m.EntryMsg? && m.index <= position then position else m.index
  }

  ghost predicate InOrder(log: seq<Bytes>, floor: int, position: int, ms: seq<ApplyMsg>)
    decreases |ms|
  {
    ms == [] || (Fits(log, floor, position, ms[0]) && InOrder(log, floor, After(position, ms[0]), ms[1..]))
  }

  function AfterAll(position: int, ms: seq<ApplyMsg>): int
    decreases |ms|
  {
    if ms == [] then position else AfterAll(After(position, ms[0]), ms[1..])
  }

  /** The server has the state of the log up to `position`.  Entries without data do not move
      `m_lastApplied`, so it may lag, but only over such entries. */
  ghost predicate Follows(log: seq<Bytes>, floor: int, position: int, s: Server) {
    && 0 <= floor <= position < |log|
    && Fold(log[..position + 1]) == Some(s.machine)
    && s.lastApplied <= position
    && forall j :: floor < j <= position && s.lastApplied < j ==> log[j] == []
  }

  lemma FoldNext(log: seq<Bytes>, p: int)
    requires 0 <= p && p + 1 < |log| && Fold(log[..p + 1]).Some?
    ensures Fold(log[..p + 2]) ==
            match StepEntry(Fold(log[..p + 1]).value, log[p + 1])
            case None => None
            case Some((m, _)) => Some(m)
  {
    assert log[..p + 2][..p + 1] == log[..p + 1];
  }

  lemma NextEntry(log: seq<Bytes>, floor: int, position: int, s: Server, term: int)
    requires Follows(log, floor, position, s) && position + 1 < |log|
    ensures var r := Handle(s, EntryMsg(position + 1, term, log[position + 1]));
      && (r.None? <==> Fold(log[..position + 2]).None?)
      && (r.Some? ==> Follows(log, floor, position + 1, r.value.0))
  {
    FoldNext(log, position);
    if log[position + 1] == [] {
      EmptyEntry(log, position);
    }
  }

  /** Every message keeps the server in step, unless the next entry is one on which the process
      ends: then it does end, on every server. */
  lemma StaysInStep(log: seq<Bytes>, floor: int, position: int, s: Server, m: ApplyMsg)
    requires Follows(log, floor, position, s) && Fits(log, floor, position, m)
    ensures var next := After(position, m);
      && (Handle(s, m).None? <==> Fold(log[..next + 1]).None?)
      && (Handle(s, m).Some? ==> Follows(log, floor, next, Handle(s, m).value.0))
  {
    match m
    case SnapshotMsg(i, _, data) => SnapshotRoundTrip(data, Fold(log[..i + 1]).value);
    case EntryMsg(i, term, data) =>
      if i == position + 1 {
        NextEntry(log, floor, position, s, term);
      }
  }

  /** Replica agreement: whatever mix of entries and snapshots a server was given, its data and
      its table are the fold of the committed log up to where it stands. */
  lemma {:induction false} ReplicaAgreement(log: seq<Bytes>, floor: int, position: int, s: Server, ms: seq<ApplyMsg>)
    requires Follows(log, floor, position, s) && InOrder(log, floor, position, ms)
    ensures var r := HandleAll(s, ms);
      r.Some? ==> Follows(log, floor, AfterAll(position, ms), r.value)
    decreases |ms|
  {
    if ms != [] {
      StaysInStep(log, floor, position, s, ms[0]);
      if Handle(s, ms[0]).Some? {
        ReplicaAgreement(log, floor, After(position, ms[0]), Handle(s, ms[0]).value.0, ms[1..]);
      }
    }
  }

  /** A server on a first start, and one that was restored from a snapshot at `i`: `start` leaves
      `m_lastApplied` at 0. */
  lemma StartsInStep(log: seq<Bytes>, i: int, b: Bytes)
    requires 0 <= i < |log| && log[0] == []
    ensures Follows(log, 0, 0, Server(EMPTY, 0))
    ensures Fold(log[..i + 1]).Some? && IsSnapshot(b, Fold(log[..i + 1]).value) ==>
              Follows(log, i, i, Server(ReadSnapshot(b), 0))
  {
    assert log[..1][..0] == [];
    if Fold(log[..i + 1]).Some? && IsSnapshot(b, Fold(log[..i + 1]).value) {
      SnapshotRoundTrip(b, Fold(log[..i + 1]).value);
    }
  }

  /** So a server that replayed everything and one that was restored from a snapshot agree in
      their state and in all they will answer, duplicates included, once they stand at one place. */
  lemma RestoredAgreesWithReplayed(log: seq<Bytes>, i: int, b: Bytes, replayed: seq<ApplyMsg>,
      restored: seq<ApplyMsg>, next: ApplyMsg)
    requires 0 <= i < |log| && log[0] == [] && Fold(log[..i + 1]).Some? && IsSnapshot(b, Fold(log[..i + 1]).value)
    requires InOrder(log, 0, 0, replayed) && InOrder(log, i, i, restored)
    requires AfterAll(0, replayed) == AfterAll(i, restored)
    requires next.EntryMsg? && next.index == AfterAll(i, restored) + 1
    ensures var s, t := HandleAll(Server(EMPTY, 0), replayed), HandleAll(Server(ReadSnapshot(b), 0), restored);
      s.Some? && t.Some? ==>
        && s.value.machine == t.value.machine
        && (forall r: Request :: IsDuplicate(s.value.machine.last, r) <==> IsDuplicate(t.value.machine.last, r))
        && (match (Handle(s.value, next), Handle(t.value, next))
            case (Some((s', x)), Some((t', y))) => s'.machine == t'.machine && x == y
            case (x, y) => x.None? && y.None?)
  {
    StartsInStep(log, i, b);
    ReplicaAgreement(log, 0, 0, Server(EMPTY, 0), replayed);
    ReplicaAgreement(log, i, i, Server(ReadSnapshot(b), 0), restored);
  }

  lemma EmptyEntry(log: seq<Bytes>, p: int)
    requires 0 <= p && p + 1 < |log| && log[p + 1] == [] && Fold(log[..p + 1]).Some?
    ensures Fold(log[..p + 2]) == Fold(log[..p + 1])
  {
    FoldNext(log, p);
  }

  /** Entries without data leave the fold alone, so a server that was not restored also has the
      fold of the first `m_lastApplied` commands. */
  lemma {:induction false} FoldOfApplied(log: seq<Bytes>, start: int, end: int)
    requires 0 <= start <= end < |log| && forall j :: start < j <= end ==> log[j] == []
    requires Fold(log[..start + 1]).Some?
    ensures Fold(log[..end + 1]) == Fold(log[..start + 1])
    decreases end
  {
    if end != start {
      FoldOfApplied(log, start, end - 1);
      EmptyEntry(log, end - 1);
    }
  }

  lemma StateIsFoldOfApplied(log: seq<Bytes>, position: int, s: Server)
    requires Follows(log, 0, position, s) && s.lastApplied >= 0 && Fold(log[..s.lastApplied + 1]).Some?
    ensures Fold(log[..s.lastApplied + 1]) == Some(s.machine)
  {
    FoldOfApplied(log, s.lastApplied, position);
  }
}
