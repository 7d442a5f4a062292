/** What the five operations mean to a client: each told by what a GET answers after it. */
module KVLaws {
  import opened Options
  import opened KVMachine
  import opened KVExactlyOnce

  /** What a GET of the key answers. */
  function Answer(data: map<Bytes, Bytes>, key: Bytes): Response {
    Execute(data, Request(GET, key, [], 0, 0)).value.1
  }

  /** A GET answers OK and the value of a key that has one, NO_KEY for one that has none; whatever else its request
      carries, it changes nothing. */
  lemma GetAnswers(data: map<Bytes, Bytes>, r: Request)
    requires r.op == GET
    ensures Execute(data, r) == Some((data, Answer(data, r.key)))
    ensures Answer(data, r.key) == if r.key in data then Response(OK, data[r.key], -1) else Response(NO_KEY, [], -1)
  {
  }

  /** After a PUT a GET of its key answers the value put, whatever was there before. */
  lemma GetAfterPut(data: map<Bytes, Bytes>, r: Request)
    requires r.op == PUT
    ensures Execute(data, r).Some?
    ensures var (after, response) := Execute(data, r).value;
      response == Response(OK, [], -1) && Answer(after, r.key) == Response(OK, r.value, -1)
  {
  }

  /** After an APPEND, the value from before with the new one behind it; a key that is missing counts as empty. */
  lemma GetAfterAppend(data: map<Bytes, Bytes>, r: Request)
    requires r.op == APPEND
    ensures Execute(data, r).Some?
    ensures var (after, response) := Execute(data, r).value;
      && response == Response(OK, [], -1)
      && Answer(after, r.key) == Response(OK, Answer(data, r.key).value + r.value, -1)
  {
  }

  /** After a DELETE its key is gone, and it says whether it had been there. */
  lemma GetAfterDelete(data: map<Bytes, Bytes>, r: Request)
    requires r.op == DELETE
    ensures Execute(data, r).Some?
    ensures var (after, response) := Execute(data, r).value;
      response == Response(Answer(data, r.key).err, [], -1) && Answer(after, r.key) == Response(NO_KEY, [], -1)
  {
  }

  /** After a CLEAR every key is gone. */
  lemma GetAfterClear(data: map<Bytes, Bytes>, r: Request, key: Bytes)
    requires r.op == CLEAR
    ensures Execute(data, r).Some?
    ensures var (after, response) := Execute(data, r).value;
      response == Response(OK, [], -1) && Answer(after, key) == Response(NO_KEY, [], -1)
  {
  }

  /** No operation but CLEAR changes what a GET of another key answers. */
  lemma OtherKeysStay(data: map<Bytes, Bytes>, r: Request, key: Bytes)
    requires Execute(data, r).Some? && r.op != CLEAR && key != r.key
    ensures Answer(Execute(data, r).value.0, key) == Answer(data, key)
  {
  }

  /** These laws leave nothing open: two maps with the same answers are the same map. */
  lemma AnswersDecide(a: map<Bytes, Bytes>, b: map<Bytes, Bytes>)
    requires forall key :: Answer(a, key) == Answer(b, key)
    ensures a == b
  {
    forall key ensures key in a <==> key in b { assert Answer(a, key) == Answer(b, key); }
    forall key | key in a ensures a[key] == b[key] { assert Answer(a, key) == Answer(b, key); }
  }

  /** What a GET of the key answers behind a log of requests: told by the last of them that touches the key. */
  function Remembered(rs: seq<Request>, key: Bytes): Option<Bytes> {
    if rs == [] then None
    else
      var before, r := Remembered(rs[..|rs| - 1], key), rs[|rs| - 1];
      if r.op == CLEAR then None
      else if r.key != key || r.op == GET then before
      else if r.op == PUT then Some(r.value)
      else if r.op == APPEND then Some((if before.Some? then before.value else []) + r.value)
      else None
  }

  function Told(rs: seq<Request>, key: Bytes): Response {
    match Remembered(rs, key)
    case Some(value) => Response(OK, value, -1)
    case None => Response(NO_KEY, [], -1)
  }

  /** The register of each key is what the requests to it, between CLEARs, make of it. */
  lemma {:induction false} GetRemembers(rs: seq<Request>, key: Bytes)
    requires Plain(rs).Some?
    ensures var data := Plain(rs).value;
      Answer(data, key) == Told(rs, key)
  {
    if rs != [] {
      var init, r := rs[..|rs| - 1], rs[|rs| - 1];
      GetRemembers(init, key);
      var data := Plain(init).value;
      if r.op == GET { GetAnswers(data, r); }
      else if r.op == CLEAR { GetAfterClear(data, r, key); }
      else if r.key != key { OtherKeysStay(data, r, key); }
      else if r.op == PUT { GetAfterPut(data, r); }
      else if r.op == APPEND { GetAfterAppend(data, r); }
      else { GetAfterDelete(data, r); }
    }
  }

  /** Exactly the five operations are known. */
  lemma KnownIff(data: map<Bytes, Bytes>, r: Request)
    ensures Execute(data, r).None? <==> r.op < 0 || r.op > 4
  {
  }

  /** What the server answers to a GET behind any log: what the requests that took effect make of the key; and if
      copies of a command were not separated, what their first occurrences do. */
  lemma ServedGet(rs: seq<Request>, r: Request)
    requires Play(rs).Some? && r.op == GET
    ensures Play(rs + [r]) == Some((Play(rs).value.0, Play(rs).value.1 + [Told(Effective(rs), r.key)]))
    ensures Grouped(rs) ==> Told(Effective(rs), r.key) == Told(Firsts(rs), r.key)
  {
    assert (rs + [r])[..|rs|] == rs;
    DataIsPlain(rs);
    GetRemembers(Effective(rs), r.key);
    GetAnswers(Play(rs).value.0.data, r);
    if Grouped(rs) {
      ExactlyOnce(rs);
      GetRemembers(Firsts(rs), r.key);
    }
  }
}
