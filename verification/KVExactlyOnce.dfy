/** Which of the commands in a log take effect.  The applier skips a mutating command when it
    repeats the last one of its client; what is wanted is that every (client, command) takes
    effect once.  The two are the same for exactly the logs in which the copies of a command
    are not separated by another mutating command of the same client. */
module KVExactlyOnce {
  import opened Options
  import opened KVMachine

  /** The state and the responses after a log of requests. */
  function Play(rs: seq<Request>): Option<(Machine, seq<Response>)> {
    if rs == [] then Some((EMPTY, []))
    else
      match Play(rs[..|rs| - 1])
      case None => None
      case Some((m, answers)) =>
        match Step(m, rs[|rs| - 1])
        case None => None
        case Some((m', a)) => Some((m', answers + [a]))
  }

  /** The data when every request is simply executed. */
  function Plain(rs: seq<Request>): Option<map<Bytes, Bytes>> {
    if rs == [] then Some(map[])
    else
      match Plain(rs[..|rs| - 1])
      case None => None
      case Some(data) =>
        match Execute(data, rs[|rs| - 1])
        case None => None
        case Some((data', _)) => Some(data')
  }

  // ----- taking effect

  predicate SameCommand(a: Request, b: Request) {
    Mutates(a) && Mutates(b) && a.clientId == b.clientId && a.commandId == b.commandId
  }

  /** The index of the last mutating request of a client, -1 if there is none. */
  function LastMutation(rs: seq<Request>, client: int): (k: int)
    ensures -1 <= k < |rs|
    ensures k >= 0 ==> Mutates(rs[k]) && rs[k].clientId == client
    ensures forall j :: k < j < |rs| ==> !(Mutates(rs[j]) && rs[j].clientId == client)
  {
    if rs == [] then -1
    else
      var n := |rs| - 1;
      if Mutates(rs[n]) && rs[n].clientId == client then n else LastMutation(rs[..n], client)
  }

  /** Request `i` is executed, not answered from the table. */
  predicate TakesEffect(rs: seq<Request>, i: int)
    requires 0 <= i < |rs|
  {
    var k := LastMutation(rs[..i], rs[i].clientId);
    !(Mutates(rs[i]) && k >= 0 && rs[k].commandId == rs[i].commandId)
  }

  /** Request `i` is the first with its (client, command), or does not mutate. */
  predicate IsFirst(rs: seq<Request>, i: int)
    requires 0 <= i < |rs|
  {
    forall j :: 0 <= j < i ==> !SameCommand(rs[j], rs[i])
  }

  /** The requests that satisfy one of the two, in order. */
  function Effective(rs: seq<Request>): seq<Request> {
    if rs == [] then []
    else
      var n := |rs| - 1;
      Effective(rs[..n]) + if TakesEffect(rs, n) then [rs[n]] else []
  }

  function Firsts(rs: seq<Request>): seq<Request> {
    if rs == [] then []
    else
      var n := |rs| - 1;
      Firsts(rs[..n]) + if IsFirst(rs, n) then [rs[n]] else []
  }

  // ----- the table

  /** The table holds each client's last mutating command and the answer it got. */
  lemma {:induction false} TableTracks(rs: seq<Request>, client: int)
    requires Play(rs).Some?
    ensures var m, answers := Play(rs).value.0, Play(rs).value.1;
      var k := LastMutation(rs, client);
      && |answers| == |rs|
      && (client in m.last <==> k >= 0)
      && (k >= 0 ==> m.last[client] == (rs[k].commandId, answers[k]))
  {
    if rs != [] {
      TableTracks(rs[..|rs| - 1], client);
      TableTracks(rs[..|rs| - 1], rs[|rs| - 1].clientId);
    }
  }

  /** The last request takes effect when it is not found in the table. */
  lemma EffectiveNext(rs: seq<Request>)
    requires rs != [] && Play(rs[..|rs| - 1]).Some?
    ensures var n := |rs| - 1;
      Effective(rs) == Effective(rs[..n]) +
        if Mutates(rs[n]) && IsDuplicate(Play(rs[..n]).value.0.last, rs[n]) then [] else [rs[n]]
  {
    TableTracks(rs[..|rs| - 1], rs[|rs| - 1].clientId);
  }

  lemma PlainPush(rs: seq<Request>, r: Request)
    ensures Plain(rs + [r]) ==
            match Plain(rs)
            case None => None
            case Some(data) => (match Execute(data, r) case None => None case Some((data', _)) => Some(data'))
  {
    assert (rs + [r])[..|rs|] == rs;
  }

  lemma PlayPush(rs: seq<Request>, r: Request)
    ensures Play(rs + [r]) ==
            match Play(rs)
            case None => None
            case Some((m, answers)) =>
              (match Step(m, r) case None => None case Some((m', a)) => Some((m', answers + [a])))
  {
    assert (rs + [r])[..|rs|] == rs;
  }

  /** With any log, the data is that of the requests that take effect. */
  lemma {:induction false} DataIsPlain(rs: seq<Request>)
    requires Play(rs).Some?
    ensures Plain(Effective(rs)) == Some(Play(rs).value.0.data)
  {
    if rs != [] {
      var n := |rs| - 1;
      DataIsPlain(rs[..n]);
      assert rs == rs[..n] + [rs[n]];
      PlayPush(rs[..n], rs[n]);
      PlainPush(Effective(rs[..n]), rs[n]);
      EffectiveNext(rs);
      assert Effective(rs[..n]) + [] == Effective(rs[..n]);
    }
  }

  // ----- exactly once

  /** Between two copies of a command its client has no other mutating command. */
  predicate Grouped(rs: seq<Request>) {
    forall i, j, k :: 0 <= i < k < j < |rs| && SameCommand(rs[i], rs[j])
                      && Mutates(rs[k]) && rs[k].clientId == rs[i].clientId ==>
                        rs[k].commandId == rs[i].commandId
  }

  lemma FirstTakesEffect(rs: seq<Request>, i: int)
    requires 0 <= i < |rs| && IsFirst(rs, i)
    ensures TakesEffect(rs, i)
  {
    var k := LastMutation(rs[..i], rs[i].clientId);
    if k >= 0 {
      assert rs[..i][k] == rs[k];
      assert !SameCommand(rs[k], rs[i]);
    }
  }

  /** Each command takes effect exactly once just for the grouped logs. */
  lemma EffectOnceIff(rs: seq<Request>)
    ensures (forall i :: 0 <= i < |rs| ==> (TakesEffect(rs, i) <==> IsFirst(rs, i))) <==> Grouped(rs)
  {
    if Grouped(rs) {
      forall i | 0 <= i < |rs| ensures TakesEffect(rs, i) <==> IsFirst(rs, i) {
        OnceIfGrouped(rs, i);
      }
    } else {
      var i, j, k :| 0 <= i < k < j < |rs| && SameCommand(rs[i], rs[j])
        && Mutates(rs[k]) && rs[k].clientId == rs[i].clientId && rs[k].commandId != rs[i].commandId;
      var again := TwiceIfNot(rs, i, k, j);
      assert TakesEffect(rs, again) && !IsFirst(rs, again);
    }
  }

  lemma OnceIfGrouped(rs: seq<Request>, i: int)
    requires Grouped(rs) && 0 <= i < |rs|
    ensures TakesEffect(rs, i) <==> IsFirst(rs, i)
  {
    if IsFirst(rs, i) {
      FirstTakesEffect(rs, i);
    } else {
      var j :| 0 <= j < i && SameCommand(rs[j], rs[i]);
      var k := LastMutation(rs[..i], rs[i].clientId);
      assert rs[..i][j] == rs[j];
      assert j <= k && rs[..i][k] == rs[k];
    }
  }

  /** The first copy behind another command of the client takes effect again. */
  lemma {:induction false} TwiceIfNot(rs: seq<Request>, i: int, k: int, j: int) returns (again: int)
    requires 0 <= i < k < j < |rs| && SameCommand(rs[i], rs[j])
    requires Mutates(rs[k]) && rs[k].clientId == rs[i].clientId && rs[k].commandId != rs[i].commandId
    ensures k < again <= j && TakesEffect(rs, again) && !IsFirst(rs, again)
    decreases j
  {
    var last := LastMutation(rs[..j], rs[j].clientId);
    assert rs[..j][k] == rs[k];
    assert k <= last && rs[..j][last] == rs[last];
    assert !IsFirst(rs, j) by { assert SameCommand(rs[i], rs[j]); }
    if rs[last].commandId == rs[j].commandId {
      again := TwiceIfNot(rs, i, k, last);
    } else {
      again := j;
    }
  }

  lemma {:induction false} EffectiveAreFirsts(rs: seq<Request>)
    requires Grouped(rs)
    ensures Effective(rs) == Firsts(rs)
  {
    if rs != [] {
      assert Grouped(rs[..|rs| - 1]);
      EffectiveAreFirsts(rs[..|rs| - 1]);
      OnceIfGrouped(rs, |rs| - 1);
    }
  }

  /** The index of the first request with the (client, command) of request `i`. */
  function FirstOf(rs: seq<Request>, i: int): (j: int)
    requires 0 <= i < |rs| && Mutates(rs[i])
    ensures 0 <= j <= i && SameCommand(rs[j], rs[i])
    ensures forall k :: 0 <= k < j ==> !SameCommand(rs[k], rs[i])
  {
    FirstFrom(rs, i, 0)
  }

  function FirstFrom(rs: seq<Request>, i: int, from: int): (j: int)
    requires 0 <= from <= i < |rs| && Mutates(rs[i])
    requires forall k :: 0 <= k < from ==> !SameCommand(rs[k], rs[i])
    ensures from <= j <= i && SameCommand(rs[j], rs[i])
    ensures forall k :: 0 <= k < j ==> !SameCommand(rs[k], rs[i])
    decreases i - from
  {
    if SameCommand(rs[from], rs[i]) then from else FirstFrom(rs, i, from + 1)
  }

  /** Playing more of a log does not change the answers already given. */
  lemma {:induction false} AnswersStay(rs: seq<Request>, n: nat)
    requires n <= |rs| && Play(rs).Some?
    ensures Play(rs[..n]).Some?
    ensures |Play(rs[..n]).value.1| == n && |Play(rs).value.1| == |rs|
    ensures Play(rs[..n]).value.1 == Play(rs).value.1[..n]
    decreases |rs|
  {
    TableTracks(rs, 0);
    if n == |rs| {
      assert rs[..n] == rs;
    } else {
      var init := rs[..|rs| - 1];
      AnswersStay(init, n);
      assert init[..n] == rs[..n];
    }
  }

  /** Every copy is answered as the first one was. */
  lemma {:induction false} CopiesAnswered(rs: seq<Request>, i: int)
    requires Grouped(rs) && Play(rs).Some? && 0 <= i < |rs| && Mutates(rs[i])
    ensures |Play(rs).value.1| == |rs|
    ensures Play(rs).value.1[i] == Play(rs).value.1[FirstOf(rs, i)]
    decreases i
  {
    TableTracks(rs, 0);
    if IsFirst(rs, i) {
      assert FirstOf(rs, i) == i;
    } else {
      OnceIfGrouped(rs, i);
      var k := LastMutation(rs[..i], rs[i].clientId);
      assert rs[..i][k] == rs[k];
      AnsweredAs(rs, i, k);
      CopiesAnswered(rs, k);
      FirstsAgree(rs, k, i);
    }
  }

  lemma FirstsAgree(rs: seq<Request>, k: int, i: int)
    requires 0 <= k < |rs| && 0 <= i < |rs| && SameCommand(rs[k], rs[i])
    ensures FirstOf(rs, k) == FirstOf(rs, i)
  {
    var a, b := FirstOf(rs, k), FirstOf(rs, i);
    assert SameCommand(rs[a], rs[i]) && SameCommand(rs[b], rs[k]);
  }

  /** A request that does not take effect gets the answer of the one it repeats. */
  lemma AnsweredAs(rs: seq<Request>, i: int, k: int)
    requires Play(rs).Some? && 0 <= i < |rs| && Mutates(rs[i])
    requires k == LastMutation(rs[..i], rs[i].clientId) >= 0 && rs[k].commandId == rs[i].commandId
    ensures |Play(rs).value.1| == |rs| && Play(rs).value.1[i] == Play(rs).value.1[k]
  {
    AnswersStay(rs, i);
    AnswersStay(rs, i + 1);
    assert rs[..i + 1][..i] == rs[..i];
    TableTracks(rs[..i], rs[i].clientId);
  }

  /** Exactly once: the data is that of the first copies alone, and every copy is answered as
      the first. */
  lemma ExactlyOnce(rs: seq<Request>)
    requires Grouped(rs) && Play(rs).Some?
    ensures Plain(Firsts(rs)) == Some(Play(rs).value.0.data)
    ensures |Play(rs).value.1| == |rs|
    ensures forall i :: 0 <= i < |rs| && Mutates(rs[i]) ==> Play(rs).value.1[i] == Play(rs).value.1[FirstOf(rs, i)]
  {
    DataIsPlain(rs);
    EffectiveAreFirsts(rs);
    TableTracks(rs, 0);
    forall i | 0 <= i < |rs| && Mutates(rs[i])
      ensures Play(rs).value.1[i] == Play(rs).value.1[FirstOf(rs, i)]
    {
      CopiesAnswered(rs, i);
    }
  }

  /** Clients count their commands up; when the log keeps each client's commands in that order,
      with other clients' in between as they come, it is grouped. */
  predicate Rising(rs: seq<Request>) {
    forall i, j :: 0 <= i < j < |rs| && Mutates(rs[i]) && Mutates(rs[j]) && rs[i].clientId == rs[j].clientId ==>
      rs[i].commandId <= rs[j].commandId
  }

  lemma RisingIsGrouped(rs: seq<Request>)
    requires Rising(rs)
    ensures Grouped(rs)
  {
  }

  // ----- a log that is not grouped

  const KEY: Bytes := []
  const A := Request(APPEND, KEY, [65], 7, 1)
  const B := Request(APPEND, KEY, [66], 7, 2)

  lemma PlayLateCopy()
    ensures var r := Play([A, B, A]);
      r.Some? && KEY in r.value.0.data && r.value.0.data[KEY] == [] + A.value + B.value + A.value
  {
    PlayPush([], A);
    PlayPush([A], B);
    PlayPush([A, B], A);
    assert [] + [A] == [A] && [A] + [B] == [A, B] && [A, B] + [A] == [A, B, A];
  }

  lemma PlainFirsts()
    ensures Firsts([A, B, A]) == [A, B]
    ensures var r := Plain([A, B]); r.Some? && KEY in r.value && r.value[KEY] == [] + A.value + B.value
  {
    var rs := [A, B, A];
    assert SameCommand(rs[0], rs[2]);
    assert rs[..2] == [A, B] && [A, B][..1] == [A] && [A][..0] == [];
    assert Firsts([A]) == [A];
    assert Firsts([A, B]) == [A, B];
    PlainPush([], A);
    PlainPush([A], B);
    assert [] + [A] == [A] && [A] + [B] == [A, B];
  }

  /** A copy that the log holds behind the next command of its client takes effect again. */
  lemma LateCopyRepeats()
    ensures !Grouped([A, B, A]) && Play([A, B, A]).Some?
    ensures Some(Play([A, B, A]).value.0.data) != Plain(Firsts([A, B, A]))
  {
    var rs := [A, B, A];
    assert SameCommand(rs[0], rs[2]) && rs[1].commandId != rs[0].commandId;
    PlayLateCopy();
    PlainFirsts();
    assert |Play(rs).value.0.data[KEY]| != |Plain([A, B]).value[KEY]|;
  }
}
