/** What the chunk parser accepts, when it ends, and what it delivers. */
module ChunkTheorems {
  import opened Options
  import opened Varint
  import opened ChunkFormat

  // ----- an encoding is taken whole

  /** `b` takes `p` to `q` without an end. */
  ghost predicate Through(p: Parser, b: Bytes, q: Parser) {
    Feed(p, b) == (q, |b|) && !q.Ended()
  }

  lemma Onward(p: Parser, a: Bytes, q: Parser, b: Bytes)
    requires Through(p, a, q)
    ensures Feed(p, a + b) == (Feed(q, b).0, |a| + Feed(q, b).1)
  {
    FeedJoined(p, a, b);
  }

  lemma ThroughBoth(p: Parser, a: Bytes, q: Parser, b: Bytes, r: Parser)
    requires Through(p, a, q) && Through(q, b, r)
    ensures Through(p, a + b, r)
  {
    Onward(p, a, q, b);
  }

  lemma ThroughOne(p: Parser, c: Byte)
    requires !Step(p, c).Ended()
    ensures Through(p, [c], Step(p, c))
  {
    assert [c][1..] == [];
  }

  lemma {:induction false} ThroughDigits(p: Parser, digits: Bytes)
    requires !p.Ended() && p.phase == Size(0) && IsHex(digits)
    ensures Through(p, digits, p.(phase := Size(HexValue(digits) % WORD)))
  {
    if digits != [] {
      var n := |digits| - 1;
      var init, c := digits[..n], digits[n];
      ThroughDigits(p, init);
      var q := p.(phase := Size(HexValue(init) % WORD));
      ThroughOne(q, c);
      ThroughBoth(p, init, q, [c], Step(q, c));
      assert init + [c] == digits;
      WrapOnce(HexValue(init), Digit(c).value);
    }
  }

  lemma WrapOnce(v: nat, d: nat)
    ensures ((v % WORD) * 16 + d) % WORD == (v * 16 + d) % WORD
  {
    var k := v / WORD;
    assert v * 16 + d == ((v % WORD) * 16 + d) + (k * 16) * WORD;
    SameRemainder((v % WORD) * 16 + d, k * 16);
  }

  lemma {:induction false} SameRemainder(a: nat, k: nat)
    ensures (a + k * WORD) % WORD == a % WORD
  {
    if k > 0 {
      SameRemainder(a, k - 1);
      assert a + k * WORD == (a + (k - 1) * WORD) + WORD;
    }
  }

  /** Where the parser is after some of the data of a chunk. */
  function InData(p: Parser, len: nat, data: Bytes): Parser {
    p.(body := p.body + data, phase := if |data| < len then Data(len, |data|) else DataCr(len))
  }

  lemma {:induction false} ThroughData(p: Parser, len: nat, data: Bytes)
    requires !p.Ended() && |data| <= len
    ensures Through(InData(p, len, []), data, InData(p, len, data))
  {
    if data == [] {
      assert p.body + [] == p.body;
    } else {
      var n := |data| - 1;
      var init, c := data[..n], data[n];
      ThroughData(p, len, init);
      var q := InData(p, len, init);
      assert p.body + init + [c] == p.body + data;
      ThroughOne(q, c);
      ThroughBoth(InData(p, len, []), init, q, [c], InData(p, len, data));
      assert init + [c] == data;
    }
  }

  /** The size line, up to the place where the data begins. */
  lemma ThroughSize(p: Parser, digits: Bytes)
    requires !p.Ended() && p.phase == Size(0) && IsHex(digits)
    ensures Through(p, digits + CRLF, InData(p, HexValue(digits) % WORD, []))
  {
    var len := HexValue(digits) % WORD;
    var q := p.(phase := Size(len));
    var r := p.(phase := SizeLf(len));
    ThroughDigits(p, digits);
    ThroughOne(q, CR);
    ThroughOne(r, LF);
    assert p.body + [] == p.body;
    ThroughBoth(q, [CR], r, [LF], InData(p, len, []));
    ThroughBoth(p, digits, q, [CR] + [LF], InData(p, len, []));
    assert [CR] + [LF] == CRLF;
  }

  lemma ThroughChunk(p: Parser, c: Chunk)
    requires !p.Ended() && p.phase == Size(0) && Taken(c)
    ensures Through(p, EncodedChunk(c), p.(body := p.body + c.data))
  {
    var len := |c.data|;
    var q := InData(p, len, c.data);
    ThroughSize(p, c.size);
    ThroughData(p, len, c.data);
    ThroughBoth(p, c.size + CRLF, InData(p, len, []), c.data, q);
    var r := q.(phase := DataLf(len));
    ThroughOne(q, CR);
    ThroughOne(r, LF);
    ThroughBoth(q, [CR], r, [LF], p.(body := p.body + c.data));
    assert [CR] + [LF] == CRLF;
    ThroughBoth(p, c.size + CRLF + c.data, q, CRLF, p.(body := p.body + c.data));
  }

  lemma {:induction false} ThroughChunks(cs: seq<Chunk>)
    requires AllTaken(cs)
    ensures Through(START, EncodedChunks(cs), START.(body := Body(cs)))
  {
    if cs != [] {
      var n := |cs| - 1;
      ThroughChunks(cs[..n]);
      var p := START.(body := Body(cs[..n]));
      ThroughChunk(p, cs[n]);
      ThroughBoth(START, EncodedChunks(cs[..n]), p, EncodedChunk(cs[n]), START.(body := Body(cs)));
    }
  }

  /** The parser at the end of the input. */
  function Finished(body: Bytes): Parser {
    Parser(Over, body, Some(body), true, false)
  }

  /** An encoding is taken to its last byte and no further, and its body is delivered. */
  lemma TakesEncoding(cs: seq<Chunk>, last: Bytes, rest: Bytes)
    requires AllTaken(cs) && TakenLast(last)
    ensures Feed(START, Encoded(cs, last) + rest) == (Finished(Body(cs)), |Encoded(cs, last)|)
  {
    var p := START.(body := Body(cs));
    ThroughChunks(cs);
    ThroughSize(p, last);
    var q, r := InData(p, 0, []), p.(phase := DataLf(0));
    assert p.body + [] == p.body;
    ThroughOne(q, CR);
    ThroughBoth(p, last + CRLF, q, [CR], r);
    ThroughBoth(START, EncodedChunks(cs), p, last + CRLF + [CR], r);
    var before := EncodedChunks(cs) + (last + CRLF + [CR]);
    Onward(START, before, r, [LF] + rest);
    assert before + ([LF] + rest) == Encoded(cs, last) + rest;
    assert ([LF] + rest)[1..] == rest;
  }

  /** Whatever pieces an encoding comes in: the body is the data of the chunks, the parser
      finishes with the last byte and has not finished with any byte before it, and what
      it has taken is the length of the encoding. */
  lemma ChunkedResponse(cs: seq<Chunk>, last: Bytes, rest: Bytes, pieces: seq<Bytes>, k: nat)
    requires AllProper(cs) && ProperLast(last)
    requires Concat(pieces) == Encoded(cs, last) + rest && k < |Encoded(cs, last)|
    ensures FeedAll(START, pieces) == (Finished(Body(cs)), |Encoded(cs, last)|)
    ensures !Feed(START, Encoded(cs, last)[..k]).0.Ended()
  {
    var e := Encoded(cs, last);
    TakesEncoding(cs, last, rest);
    SplitsDoNotMatter(START, pieces);
    TakesEncoding(cs, last, []);
    assert e + [] == e;
    FeedJoined(START, e[..k], e[k..]);
    assert e[..k] + e[k..] == e;
  }

  // ----- and nothing else is

  /** What has been read so far: whole chunks, and of the next its size and some of its data. */
  datatype Trace = Trace(cs: seq<Chunk>, size: Bytes, data: Bytes)

  /** The bytes of the chunk that is not whole yet. */
  function Partial(t: Trace, phase: Phase): Bytes {
    match phase
    case Size(_) => t.size
    case SizeLf(_) => t.size + [CR]
    case Data(_, _) => t.size + CRLF + t.data
    case DataCr(_) => t.size + CRLF + t.data
    case DataLf(_) => t.size + CRLF + t.data + [CR]
    case Over => []
  }

  ghost predicate PhaseFits(t: Trace, phase: Phase) {
    var len := HexValue(t.size) % WORD;
    match phase
    case Size(n) => n == len && t.data == []
    case SizeLf(n) => n == len && t.data == []
    case Data(n, i) => n == len && i == |t.data| < n
    case DataCr(n) => n == len == |t.data|
    case DataLf(n) => n == len == |t.data|
    case Over => false
  }

  ghost predicate Explains(t: Trace, p: Parser, b: Bytes) {
    && AllTaken(t.cs) && IsHex(t.size)
    && p.body == Body(t.cs) + t.data && p.response == None && !p.Ended()
    && PhaseFits(t, p.phase) && b == EncodedChunks(t.cs) + Partial(t, p.phase)
  }

  /** The trace after one more byte. */
  function Traced(t: Trace, p: Parser, c: Byte): Trace {
    match p.phase
    case Size(_) => if Digit(c).Some? then t.(size := t.size + [c]) else t
    case Data(_, _) => t.(data := t.data + [c])
    case DataLf(_) => Trace(t.cs + [Chunk(t.size, t.data)], [], [])
    case _ => t
  }

  lemma HexPush(digits: Bytes, c: Byte)
    requires IsHex(digits) && Digit(c).Some?
    ensures IsHex(digits + [c]) && HexValue(digits + [c]) == HexValue(digits) * 16 + Digit(c).value
  {
    assert (digits + [c])[..|digits|] == digits;
  }

  lemma ChunksPush(cs: seq<Chunk>, c: Chunk)
    ensures EncodedChunks(cs + [c]) == EncodedChunks(cs) + EncodedChunk(c) && Body(cs + [c]) == Body(cs) + c.data
  {
    assert (cs + [c])[..|cs|] == cs;
  }

  /** Within a chunk. */
  lemma PartGrows(t: Trace, p: Parser, c: Byte)
    requires IsHex(t.size) && PhaseFits(t, p.phase) && !p.phase.DataLf? && !p.Ended() && !Step(p, c).Ended()
    ensures var u := Traced(t, p, c);
      && u.cs == t.cs && IsHex(u.size) && PhaseFits(u, Step(p, c).phase)
      && Partial(u, Step(p, c).phase) == Partial(t, p.phase) + [c]
      && (p.body == Body(t.cs) + t.data ==> Step(p, c).body == Body(t.cs) + u.data)
  {
    match p.phase
    case Size(n) =>
      if Digit(c).Some? {
        HexPush(t.size, c);
        WrapOnce(HexValue(t.size), Digit(c).value);
      }
    case SizeLf(n) => assert t.size + CRLF + [] == t.size + [CR] + [LF];
    case _ =>
  }

  /** At the end of one. */
  lemma ChunkEnds(t: Trace, p: Parser, b: Bytes)
    requires Explains(t, p, b) && p.phase.DataLf? && !Step(p, LF).Ended()
    ensures Explains(Traced(t, p, LF), Step(p, LF), b + [LF])
  {
    var whole := Chunk(t.size, t.data);
    ChunksPush(t.cs, whole);
    var part := Partial(t, p.phase);
    assert part + [LF] == EncodedChunk(whole);
    assert (EncodedChunks(t.cs) + part) + [LF] == EncodedChunks(t.cs) + (part + [LF]);
    assert EncodedChunks(t.cs + [whole]) + [] == EncodedChunks(t.cs + [whole]);
    assert Body(t.cs + [whole]) + [] == Body(t.cs + [whole]);
  }

  lemma StillExplained(t: Trace, p: Parser, b: Bytes, c: Byte)
    requires Explains(t, p, b) && !Step(p, c).Ended()
    ensures Explains(Traced(t, p, c), Step(p, c), b + [c])
  {
    if p.phase.DataLf? {
      ChunkEnds(t, p, b);
    } else {
      PartGrows(t, p, c);
      var part := Partial(t, p.phase);
      assert (EncodedChunks(t.cs) + part) + [c] == EncodedChunks(t.cs) + (part + [c]);
    }
  }

  lemma {:induction false} Explained(b: Bytes) returns (t: Trace)
    requires !Feed(START, b).0.Ended()
    ensures Explains(t, Feed(START, b).0, b)
  {
    if b == [] {
      t := Trace([], [], []);
    } else {
      var init, c := b[..|b| - 1], b[|b| - 1];
      assert init + [c] == b;
      FeedJoined(START, init, [c]);
      t := Explained(init);
      var p := Feed(START, init).0;
      ThroughOne(p, c);
      StillExplained(t, p, init, c);
      t := Traced(t, p, c);
    }
  }

  lemma FinishExplained(t: Trace, p: Parser, b: Bytes, c: Byte)
    requires Explains(t, p, b) && Step(p, c).finish
    ensures AllTaken(t.cs) && TakenLast(t.size) && b + [c] == Encoded(t.cs, t.size)
    ensures Step(p, c) == Finished(Body(t.cs))
  {
    assert p.phase == DataLf(0) && t.data == [] && c == LF;
    assert Body(t.cs) + [] == Body(t.cs);
    assert Partial(t, p.phase) + [c] == t.size + CRLF + CRLF;
    assert (EncodedChunks(t.cs) + Partial(t, p.phase)) + [c] == EncodedChunks(t.cs) + (Partial(t, p.phase) + [c]);
  }

  /** The input up to the byte that ended the parser. */
  lemma {:induction false} EndsAt(p: Parser, b: Bytes)
    requires !p.Ended() && Feed(p, b).0.Ended()
    ensures var (q, n) := Feed(p, b);
      n > 0 && !Feed(p, b[..n - 1]).0.Ended() && Step(Feed(p, b[..n - 1]).0, b[n - 1]) == q
    decreases |b|
  {
    var q := Step(p, b[0]);
    if !q.Ended() {
      EndsAt(q, b[1..]);
      var n := Feed(q, b[1..]).1;
      assert b[..n][0] == b[0] && b[..n][1..] == b[1..][..n - 1];
    }
  }

  /** When the parser finishes, what it took is an encoding and what it delivered is its body. */
  lemma FinishMeans(b: Bytes) returns (cs: seq<Chunk>, last: Bytes)
    requires Feed(START, b).0.finish
    ensures AllTaken(cs) && TakenLast(last)
    ensures b[..Feed(START, b).1] == Encoded(cs, last) && Feed(START, b).0 == Finished(Body(cs))
  {
    EndsAt(START, b);
    var n := Feed(START, b).1;
    var before := b[..n - 1];
    var t := Explained(before);
    FinishExplained(t, Feed(START, before).0, before, b[n - 1]);
    assert before + [b[n - 1]] == b[..n];
    cs, last := t.cs, t.size;
  }

  /** The inputs that the parser takes whole are exactly the encodings, in its own wider sense. */
  lemma AcceptsExactly(b: Bytes)
    ensures Feed(START, b).0.finish && Feed(START, b).1 == |b| <==>
            exists cs, last :: AllTaken(cs) && TakenLast(last) && b == Encoded(cs, last)
  {
    if Feed(START, b).0.finish && Feed(START, b).1 == |b| {
      var cs, last := FinishMeans(b);
      assert b[..|b|] == b;
    }
    if exists cs, last :: AllTaken(cs) && TakenLast(last) && b == Encoded(cs, last) {
      var cs, last :| AllTaken(cs) && TakenLast(last) && b == Encoded(cs, last);
      TakesEncoding(cs, last, []);
      assert b + [] == b;
    }
  }

  /** Every proper encoding is one in that sense; not the other way round: a line without a size
      ends the body. */
  lemma TakenMoreThanProper(c: Chunk, last: Bytes)
    ensures Proper(c) ==> Taken(c)
    ensures ProperLast(last) ==> TakenLast(last)
    ensures Feed(START, CRLF + CRLF) == (Finished([]), 4) && !ProperLast([])
  {
    TakesEncoding([], [], []);
    assert Encoded([], []) + [] == CRLF + CRLF;
  }
}
