/** What the sizes of chunks mean: a writer of hexadecimal numbers, whose responses the parser takes. */
module ChunkHex {
  import opened Options
  import opened Varint
  import opened ChunkFormat
  import opened ChunkTheorems

  const LOWER: string := "0123456789abcdef"
  const UPPER: string := "0123456789ABCDEF"
  const NEWLINE: string := "\r\n"

  function Ascii(c: char): Byte
    requires c < 128 as char
  {
    c as int as Byte
  }

  function HexDigit(d: nat, upper: bool): Byte
    requires d < 16
  {
    Ascii(if upper then UPPER[d] else LOWER[d])
  }

  /** The parser's digits are those of either case, each with its own value, and nothing else is one. */
  lemma DigitIff(c: Byte, d: nat)
    ensures Digit(c) == Some(d) <==> d < 16 && (c == HexDigit(d, false) || c == HexDigit(d, true))
  {
  }

  /** A number in hexadecimal, without leading zeros. */
  function Hex(n: nat, upper: bool): Bytes {
    if n < 16 then [HexDigit(n, upper)] else Hex(n / 16, upper) + [HexDigit(n % 16, upper)]
  }

  /** The parser reads every number back. */
  lemma {:induction false} HexMeans(n: nat, upper: bool)
    ensures Hex(n, upper) != [] && IsHex(Hex(n, upper)) && HexValue(Hex(n, upper)) == n
  {
    if n < 16 {
      assert Hex(n, upper) == [] + [HexDigit(n, upper)];
      OneMoreDigit([], n, upper);
    } else {
      HexMeans(n / 16, upper);
      OneMoreDigit(Hex(n / 16, upper), n % 16, upper);
    }
  }

  lemma OneMoreDigit(digits: Bytes, d: nat, upper: bool)
    requires IsHex(digits) && d < 16
    ensures var more := digits + [HexDigit(d, upper)];
      more != [] && IsHex(more) && HexValue(more) == HexValue(digits) * 16 + d
  {
    DigitIff(HexDigit(d, upper), d);
    HexPush(digits, HexDigit(d, upper));
  }

  function Newline(): Bytes {
    [Ascii(NEWLINE[0]), Ascii(NEWLINE[1])]
  }

  /** The chunks with the given data, one after the other. */
  function WrittenChunks(datas: seq<Bytes>, upper: bool): Bytes {
    if datas == [] then []
    else
      var data := datas[|datas| - 1];
      WrittenChunks(datas[..|datas| - 1], upper) + (Hex(|data|, upper) + Newline() + data + Newline())
  }

  /** A whole response body, with the chunk of size 0 that ends it. */
  function Written(datas: seq<Bytes>, upper: bool): Bytes {
    WrittenChunks(datas, upper) + ([Ascii('0')] + Newline() + Newline())
  }

  /** The data alone. */
  function Joined(datas: seq<Bytes>): Bytes {
    if datas == [] then [] else Joined(datas[..|datas| - 1]) + datas[|datas| - 1]
  }

  function Chunks(datas: seq<Bytes>, upper: bool): (cs: seq<Chunk>)
    ensures |cs| == |datas|
  {
    seq(|datas|, i requires 0 <= i < |datas| => Chunk(Hex(|datas[i]|, upper), datas[i]))
  }

  lemma {:induction false} WrittenIsEncoded(datas: seq<Bytes>, upper: bool)
    ensures WrittenChunks(datas, upper) == EncodedChunks(Chunks(datas, upper))
    ensures Joined(datas) == Body(Chunks(datas, upper))
  {
    if datas != [] {
      var n := |datas| - 1;
      WrittenIsEncoded(datas[..n], upper);
      assert Chunks(datas, upper)[..n] == Chunks(datas[..n], upper);
    }
  }

  /** A response so written, in whatever pieces it comes: the body is the data joined, and the parser finishes with
      its last byte and with none before. */
  lemma WrittenResponse(datas: seq<Bytes>, upper: bool, rest: Bytes, pieces: seq<Bytes>, k: nat)
    requires forall i :: 0 <= i < |datas| ==> 0 < |datas[i]| < 0x1_0000_0000_0000_0000
    requires Concat(pieces) == Written(datas, upper) + rest && k < |Written(datas, upper)|
    ensures FeedAll(START, pieces) ==
            (Parser(Over, Joined(datas), Some(Joined(datas)), true, false), |Written(datas, upper)|)
    ensures !Feed(START, Written(datas, upper)[..k]).0.Ended()
  {
    var cs := Chunks(datas, upper);
    WrittenIsEncoded(datas, upper);
    forall i | 0 <= i < |cs| ensures Proper(cs[i]) { HexMeans(|datas[i]|, upper); }
    HexMeans(0, upper);
    assert Hex(0, upper) == [Ascii('0')] && Newline() == CRLF;
    ChunkedResponse(cs, Hex(0, upper), rest, pieces, k);
  }
}
