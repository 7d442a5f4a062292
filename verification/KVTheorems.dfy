/** The key-value service as a whole: commands take effect once on every server, and servers
    over different Raft nodes agree. */
module KVTheorems {
  import opened Options
  import opened Varint
  import opened KVMachine
  import opened KVReplica
  import opened KVExactlyOnce
  import opened KVLaws
  import opened RaftLogSpec
  import opened RaftProtocol
  import opened RaftSystem
  import opened RaftTheorems
  import RaftDelivery

  /** The commands of a log, entries without data left out. */
  function Requests(log: seq<Bytes>): seq<Request> {
    if log == [] then []
    else
      var data := log[|log| - 1];
      Requests(log[..|log| - 1]) +
        if data == [] then [] else match Parse(data) case None => [] case Some(r) => [r]
  }

  lemma {:induction false} FoldIsPlay(log: seq<Bytes>)
    requires Fold(log).Some?
    ensures Play(Requests(log)).Some? && Play(Requests(log)).value.0 == Fold(log).value
  {
    if log != [] {
      var init, data := log[..|log| - 1], log[|log| - 1];
      FoldIsPlay(init);
      if data == [] {
        assert Requests(log) == Requests(init);
      } else {
        PlayPush(Requests(init), Parse(data).value);
      }
    }
  }

  /** On every server, whatever it was given: each (client, command) of the log so far has taken
      effect once, if no client's copies are separated by another of its commands. */
  lemma ServerExactlyOnce(log: seq<Bytes>, floor: int, position: int, s: Server)
    requires Follows(log, floor, position, s) && Grouped(Requests(log[..position + 1]))
    ensures Plain(Firsts(Requests(log[..position + 1]))) == Some(s.machine.data)
  {
    FoldIsPlay(log[..position + 1]);
    ExactlyOnce(Requests(log[..position + 1]));
  }

  lemma HandlesParsed(s: Server, index: int, term: int, data: Bytes, r: Request)
    requires data != [] && Parse(data) == Some(r) && index > s.lastApplied
    ensures Handle(s, EntryMsg(index, term, data)) ==
            match Step(s.machine, r)
            case None => None
            case Some((m, answer)) => Some((Server(m, index), Some(answer)))
  {
  }

  lemma {:induction false} PlaysNext(rs: seq<Request>, r: Request)
    requires Play(rs).Some?
    ensures |Play(rs).value.1| == |rs|
    ensures Play(rs + [r]) ==
            match Step(Play(rs).value.0, r)
            case None => None
            case Some((m, answer)) => Some((m, Play(rs).value.1 + [answer]))
  {
    assert (rs + [r])[..|rs|] == rs;
    if rs != [] {
      PlaysNext(rs[..|rs| - 1], rs[|rs| - 1]);
      assert rs[..|rs| - 1] + [rs[|rs| - 1]] == rs;
    }
  }

  /** A server in step answers the next command as serving the commands of the log one after the other would, and
      ends where that has no answer. */
  lemma AnsweredAsServed(log: seq<Bytes>, floor: int, position: int, s: Server, term: int, r: Request)
    requires Follows(log, floor, position, s) && position + 1 < |log|
    requires log[position + 1] != [] && Parse(log[position + 1]) == Some(r)
    ensures var rs, next := Requests(log[..position + 1]), Handle(s, EntryMsg(position + 1, term, log[position + 1]));
      match Play(rs + [r])
        case None => next == None
        case Some((m, answers)) =>
          |answers| == |rs| + 1 && next == Some((Server(m, position + 1), Some(answers[|rs|])))
  {
    FoldIsPlay(log[..position + 1]);
    PlaysNext(Requests(log[..position + 1]), r);
    HandlesParsed(s, position + 1, term, log[position + 1], r);
  }

  /** In particular a GET is told what the commands that took effect make of its key. */
  lemma GetAnswered(log: seq<Bytes>, floor: int, position: int, s: Server, term: int, r: Request)
    requires Follows(log, floor, position, s) && position + 1 < |log| && r.op == GET
    requires log[position + 1] != [] && Parse(log[position + 1]) == Some(r)
    ensures Handle(s, EntryMsg(position + 1, term, log[position + 1])) ==
            Some((Server(s.machine, position + 1), Some(Told(Effective(Requests(log[..position + 1])), r.key))))
  {
    var rs := Requests(log[..position + 1]);
    FoldIsPlay(log[..position + 1]);
    AnsweredAsServed(log, floor, position, s, term, r);
    ServedGet(rs, r);
    PlaysNext(rs, r);
  }

  // ----- over Raft

  /** The data of log entries as bytes. */
  function Data(entries: seq<Entry>): (log: seq<Bytes>)
    ensures |log| == |entries|
  {
    seq(|entries|, i requires 0 <= i < |entries| => BytesOf(entries[i].data))
  }

  function BytesOf(s: string): (b: Bytes)
    ensures |b| == |s|
  {
    seq(|s|, i requires 0 <= i < |s| => (s[i] as int % 0x100) as Byte)
  }

  /** Delivered entries, as `applier` wraps them; the first one follows index `start`. */
  function Messages(delivered: seq<Entry>, start: nat): (ms: seq<ApplyMsg>)
    ensures |ms| == |delivered|
  {
    seq(|delivered|, i requires 0 <= i < |delivered| =>
      EntryMsg(start + 1 + i, delivered[i].term, BytesOf(delivered[i].data)))
  }

  lemma {:induction false} MessagesInOrder(full: seq<Entry>, floor: nat, start: nat, end: nat)
    requires floor <= start <= end < |full|
    ensures var ms := Messages(full[start + 1..end + 1], start);
      InOrder(Data(full), floor, start, ms) && AfterAll(start, ms) == end
    decreases end - start
  {
    if start < end {
      var ms := Messages(full[start + 1..end + 1], start);
      assert ms[1..] == Messages(full[start + 2..end + 1], start + 1);
      assert ms[0] == EntryMsg(start + 1, full[start + 1].term, BytesOf(full[start + 1].data));
      MessagesInOrder(full, floor, start + 1, end);
    }
  }

  lemma SameStart(was: seq<Entry>, full: seq<Entry>, start: nat, s: Server)
    requires start < |was| && start < |full| && full[..start + 1] == was[..start + 1]
    requires Follows(Data(was), start, start, s)
    ensures Follows(Data(full), start, start, s)
  {
    forall i | 0 <= i <= start ensures full[i] == was[i] {
      assert full[..start + 1][i] == was[..start + 1][i];
    }
    assert Data(full)[..start + 1] == Data(was)[..start + 1];
  }

  lemma RangeKeepsInStep(was: seq<Entry>, full: seq<Entry>, start: nat, end: nat, s: Server)
    requires start < |was| && start <= end < |full| && full[..start + 1] == was[..start + 1]
    requires Follows(Data(was), start, start, s)
    ensures var ms := Messages(full[start + 1..end + 1], start);
      && InOrder(Data(full), start, start, ms) && AfterAll(start, ms) == end
      && (HandleAll(s, ms).Some? ==> Follows(Data(full), start, end, HandleAll(s, ms).value))
  {
    SameStart(was, full, start, s);
    MessagesInOrder(full, start, start, end);
    ReplicaAgreement(Data(full), start, start, s, Messages(full[start + 1..end + 1], start));
  }

  /** The applier of Raft and that of the server together: with whole batches, what is delivered is in
      order, and a server in step with what had been applied is in step with what has been delivered. */
  lemma DeliveryKeepsInStep(log: Log, steps: seq<RaftDelivery.Step>, cap: nat, s: Server)
    requires RaftDelivery.Ready(log) && RaftDelivery.WholeBatches(log, steps, cap)
    requires Follows(Data(log.full), log.applied, log.applied, s)
    ensures var a := RaftDelivery.Run(log, steps, cap);
      var ms, data := Messages(a.delivered, log.applied), Data(a.log.full);
      && InOrder(data, log.applied, log.applied, ms) && AfterAll(log.applied, ms) == RaftDelivery.Reached(a)
      && (HandleAll(s, ms).Some? ==> Follows(data, log.applied, RaftDelivery.Reached(a), HandleAll(s, ms).value))
  {
    var a := RaftDelivery.Run(log, steps, cap);
    var start, end := log.applied, RaftDelivery.Reached(a);
    assert start <= end < |a.log.full| && a.delivered == a.log.full[start + 1..end + 1] by {
      RaftDelivery.InOrderWithoutGaps(log, steps, cap);
    }
    assert start < |log.full| && a.log.full[..start + 1] == log.full[..start + 1] by {
      RaftDelivery.AppliedStays(log, steps, cap);
    }
    RangeKeepsInStep(log.full, a.log.full, start, end, s);
  }

  /** Servers over any two nodes of a run, looked at at any two moments: the one that stands
      further has at the other's place had the other's data and table.  `s` and `u` are the
      system at the two moments; the servers may have been fed and restored in any way, as long
      as they stand within what their nodes have committed. */
  lemma ReplicatedAgreement(cluster: set<int>, cap: nat, actions: seq<Action>, more: seq<Action>,
                            s: System, u: System, i: int, j: int,
                            x: Server, floorX: int, p: int, y: Server, floorY: int, q: int)
    requires NONE !in cluster && CarefulRun(cluster, cap, actions + more)
    requires s == Run(cluster, cap, actions) && u == Run(cluster, cap, actions + more)
    requires i in s.nodes && j in u.nodes
    requires Follows(Data(s.nodes[i].log.full), floorX, p, x) && p <= s.nodes[i].log.committed
    requires Follows(Data(u.nodes[j].log.full), floorY, q, y) && q <= u.nodes[j].log.committed
    ensures p <= q ==> Fold(Data(u.nodes[j].log.full)[..p + 1]) == Some(x.machine)
    ensures q <= p ==> Fold(Data(s.nodes[i].log.full)[..q + 1]) == Some(y.machine)
    ensures p == q ==> x.machine == y.machine
  {
    StateMachineSafety(cluster, cap, actions, more, s, u, i, j);
    var a, b := s.nodes[i].log.full, u.nodes[j].log.full;
    var n := Min(p, q) + 1;
    assert Data(a)[..n] == Data(b)[..n];
  }
}
