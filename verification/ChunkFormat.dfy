/** The chunked transfer coding (section 7.1 of RFC 9112, without extensions and trailers) and
    the parser that takes it a byte at a time.

    The coroutine `parse_chunk` is suspended at one of six places; `Phase` says at which, with
    the locals that matter there.
*/
module ChunkFormat {
  import opened Options
  import opened Varint

  type Bytes = seq<Byte>

  const CR: Byte := 13
  const LF: Byte := 10
  const CRLF: Bytes := [CR, LF]

  /** `size_t`. */
  const WORD: nat := 0x1_0000_0000_0000_0000

  /** The value of a hexadecimal digit of either case. */
  function Digit(c: Byte): Option<nat> {
    if 48 <= c <= 57 then Some(c as nat - 48)
    else if 97 <= c <= 102 then Some(c as nat - 87)
    else if 65 <= c <= 70 then Some(c as nat - 55)
    else None
  }

  // ----- the parser

  datatype Phase =
    | Size(len: nat)
    | SizeLf(len: nat)
    | Data(len: nat, i: nat)
    | DataCr(len: nat)
    | DataLf(len: nat)
    | Over

  /** `body` is the coroutine's; `response` is what `on_response_chunk` has been given. */
  datatype Parser = Parser(phase: Phase, body: Bytes, response: Option<Bytes>, finish: bool, error: bool) {
    predicate Ended() { finish || error }
  }

  const START := Parser(Size(0), [], None, false, false)

  function AfterSize(p: Parser, len: nat): Parser {
    p.(phase := if len == 0 then DataCr(len) else Data(len, 0))
  }

  function Fail(p: Parser): Parser { p.(phase := Over, error := true) }

  /** One resumption. */
  function Step(p: Parser, c: Byte): Parser {
    match p.phase
    case Size(len) =>
      (match Digit(c)
       case Some(d) => p.(phase := Size((len * 16 + d) % WORD))
       case None => if c == CR then p.(phase := SizeLf(len)) else Fail(p))
    case SizeLf(len) => if c == LF then AfterSize(p, len) else Fail(p)
    case Data(len, i) => p.(body := p.body + [c], phase := if i + 1 < len then Data(len, i + 1) else DataCr(len))
    case DataCr(len) => if c == CR then p.(phase := DataLf(len)) else Fail(p)
    case DataLf(len) =>
      if c != LF then Fail(p)
      else if len == 0 then p.(phase := Over, response := Some(p.body), finish := true)
      else p.(phase := Size(0))
    case Over => p
  }

  /** One call of `execute`: bytes are taken until the parser ends or there are no more; the
      number taken comes with the parser. */
  function Feed(p: Parser, b: Bytes): (r: (Parser, nat))
    ensures r.1 <= |b|
    decreases |b|
  {
    if b == [] then (p, 0)
    else
      var q := Step(p, b[0]);
      if q.Ended() then (q, 1)
      else
        var (r, n) := Feed(q, b[1..]);
        (r, n + 1)
  }

  /** The caller's loop: the pieces as they come in, until the parser has ended. */
  function FeedAll(p: Parser, pieces: seq<Bytes>): (Parser, nat)
    decreases |pieces|
  {
    if pieces == [] then (p, 0)
    else
      var (q, n) := Feed(p, pieces[0]);
      if q.Ended() then (q, n)
      else
        var (r, m) := FeedAll(q, pieces[1..]);
        (r, n + m)
  }

  // ----- where the input is cut does not matter

  lemma {:induction false} FeedUnended(p: Parser, b: Bytes)
    ensures var (q, n) := Feed(p, b); !q.Ended() ==> n == |b|
    decreases |b|
  {
    if b != [] && !Step(p, b[0]).Ended() { FeedUnended(Step(p, b[0]), b[1..]); }
  }

  lemma {:induction false} FeedJoined(p: Parser, a: Bytes, b: Bytes)
    ensures Feed(p, a + b) ==
            var (q, n) := Feed(p, a);
            if q.Ended() && a != [] then (q, n) else (Feed(q, b).0, n + Feed(q, b).1)
    decreases |a|
  {
    if a == [] {
      assert a + b == b;
    } else {
      assert (a + b)[0] == a[0] && (a + b)[1..] == a[1..] + b;
      var q := Step(p, a[0]);
      if !q.Ended() {
        FeedJoined(q, a[1..], b);
        if a[1..] == [] { assert !Feed(q, a[1..]).0.Ended(); }
      }
    }
  }

  function Concat(pieces: seq<Bytes>): Bytes {
    if pieces == [] then [] else pieces[0] + Concat(pieces[1..])
  }

  /** Any split into calls parses as one call does. */
  lemma {:induction false} SplitsDoNotMatter(p: Parser, pieces: seq<Bytes>)
    requires !p.Ended()
    ensures FeedAll(p, pieces) == Feed(p, Concat(pieces))
    decreases |pieces|
  {
    if pieces != [] {
      FeedJoined(p, pieces[0], Concat(pieces[1..]));
      var q := Feed(p, pieces[0]).0;
      if !q.Ended() { SplitsDoNotMatter(q, pieces[1..]); }
    }
  }

  // ----- the format

  datatype Chunk = Chunk(size: Bytes, data: Bytes)

  function HexValue(digits: Bytes): nat {
    if digits == [] then 0
    else HexValue(digits[..|digits| - 1]) * 16 + match Digit(digits[|digits| - 1]) case Some(d) => d case None => 0
  }

  predicate IsHex(digits: Bytes) {
    forall i :: 0 <= i < |digits| ==> Digit(digits[i]).Some?
  }

  /** `chunk-size CRLF chunk-data CRLF` */
  function EncodedChunk(c: Chunk): Bytes {
    c.size + CRLF + c.data + CRLF
  }

  function EncodedChunks(cs: seq<Chunk>): Bytes {
    if cs == [] then [] else EncodedChunks(cs[..|cs| - 1]) + EncodedChunk(cs[|cs| - 1])
  }

  /** The chunks and the last one, of size zero. */
  function Encoded(cs: seq<Chunk>, last: Bytes): Bytes {
    EncodedChunks(cs) + (last + CRLF + CRLF)
  }

  function Body(cs: seq<Chunk>): Bytes {
    if cs == [] then [] else Body(cs[..|cs| - 1]) + cs[|cs| - 1].data
  }

  /** As the format wants it: digits that say the length of the data, which is not empty. */
  predicate Proper(c: Chunk) {
    c.size != [] && IsHex(c.size) && c.data != [] && HexValue(c.size) == |c.data| < WORD
  }

  predicate ProperLast(last: Bytes) {
    last != [] && IsHex(last) && HexValue(last) == 0
  }

  /** As the parser takes it: no digits stand for zero, and sizes are taken modulo the word. */
  predicate Taken(c: Chunk) {
    IsHex(c.size) && c.data != [] && HexValue(c.size) % WORD == |c.data|
  }

  predicate TakenLast(last: Bytes) {
    IsHex(last) && HexValue(last) % WORD == 0
  }

  predicate AllTaken(cs: seq<Chunk>) {
    forall i :: 0 <= i < |cs| ==> Taken(cs[i])
  }

  predicate AllProper(cs: seq<Chunk>) {
    forall i :: 0 <= i < |cs| ==> Proper(cs[i])
  }
}
