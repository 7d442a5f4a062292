/** Integers of a fixed number of bytes, as `ByteArray` writes and reads them. */
module FixedInt {
  import opened Varint

  datatype Endian = Little | Big

  function Pow256(n: nat): (p: nat)
    ensures p > 0
  {
    if n == 0 then 1 else 0x100 * Pow256(n - 1)
  }

  /** The bytes of an integer from the low one up. */
  function LowFirst(v: nat, n: nat): (b: seq<Byte>)
    ensures |b| == n
    decreases n
  {
    if n == 0 then [] else [(v % 0x100) as Byte] + LowFirst(v / 0x100, n - 1)
  }

  function FromLowFirst(b: seq<Byte>): nat {
    if b == [] then 0 else b[0] as nat + 0x100 * FromLowFirst(b[1..])
  }

  function Reverse(b: seq<Byte>): (r: seq<Byte>)
    ensures |r| == |b|
  {
    if b == [] then [] else Reverse(b[1..]) + [b[0]]
  }

  lemma {:induction false} ReverseTwice(b: seq<Byte>)
    ensures Reverse(Reverse(b)) == b
  {
    if b != [] {
      ReverseLast(Reverse(b[1..]), b[0]);
      ReverseTwice(b[1..]);
    }
  }

  lemma {:induction false} ReverseLast(b: seq<Byte>, last: Byte)
    ensures Reverse(b + [last]) == [last] + Reverse(b)
  {
    if b != [] {
      assert (b + [last])[1..] == b[1..] + [last];
      ReverseLast(b[1..], last);
    }
  }

  lemma {:induction false} BytesRoundTrip(v: nat, n: nat)
    requires v < Pow256(n)
    ensures FromLowFirst(LowFirst(v, n)) == v
    decreases n
  {
    if n > 0 {
      BytesRoundTrip(v / 0x100, n - 1);
      assert LowFirst(v, n)[1..] == LowFirst(v / 0x100, n - 1);
    }
  }

  lemma {:induction false} ValueRoundTrip(b: seq<Byte>)
    ensures FromLowFirst(b) < Pow256(|b|) && LowFirst(FromLowFirst(b), |b|) == b
  {
    if b != [] {
      ValueRoundTrip(b[1..]);
      assert FromLowFirst(b) / 0x100 == FromLowFirst(b[1..]);
    }
  }

  // ----- on a host

  /** What a host has in memory for an integer, and back. */
  function InMemory(v: nat, n: nat, host: Endian): seq<Byte> {
    if host == Little then LowFirst(v, n) else Reverse(LowFirst(v, n))
  }

  function OfMemory(b: seq<Byte>, host: Endian): nat {
    FromLowFirst(if host == Little then b else Reverse(b))
  }

  function ByteSwap(v: nat, n: nat): nat {
    FromLowFirst(Reverse(LowFirst(v, n)))
  }

  /** `WriteFInt`: swapped when the array's byte order is not the host's. */
  function Write(v: nat, n: nat, endian: Endian, host: Endian): seq<Byte> {
    InMemory(if endian != host then ByteSwap(v, n) else v, n, host)
  }

  /** `readFInt`, swapped on the same test. */
  function Read(b: seq<Byte>, endian: Endian, host: Endian): nat {
    var tmp := OfMemory(b, host);
    if endian != host then ByteSwap(tmp, |b|) else tmp
  }

  /** `readFInt` as written: swapped when the array is little endian, whatever the host is. */
  function ReadAsWritten(b: seq<Byte>, endian: Endian, host: Endian): nat {
    var tmp := OfMemory(b, host);
    if endian == Little then ByteSwap(tmp, |b|) else tmp
  }

  lemma SwapSwaps(v: nat, n: nat)
    requires v < Pow256(n)
    ensures ByteSwap(v, n) < Pow256(n) && LowFirst(ByteSwap(v, n), n) == Reverse(LowFirst(v, n))
    ensures ByteSwap(ByteSwap(v, n), n) == v
  {
    ValueRoundTrip(Reverse(LowFirst(v, n)));
    ReverseTwice(LowFirst(v, n));
    BytesRoundTrip(v, n);
  }

  /** What is written is the integer in the byte order of the array, on every host. */
  lemma SameOnEveryHost(v: nat, n: nat, endian: Endian, host: Endian)
    requires v < Pow256(n)
    ensures Write(v, n, endian, host) == if endian == Little then LowFirst(v, n) else Reverse(LowFirst(v, n))
  {
    SwapSwaps(v, n);
    ReverseTwice(LowFirst(v, n));
  }

  /** The value of bytes of which the first counts most. */
  function FromHighFirst(b: seq<Byte>): nat {
    if b == [] then 0 else 0x100 * FromHighFirst(b[..|b| - 1]) + b[|b| - 1] as nat
  }

  lemma {:induction false} ReversedValue(b: seq<Byte>)
    ensures FromHighFirst(Reverse(b)) == FromLowFirst(b)
  {
    if b != [] {
      ReversedValue(b[1..]);
      var r := Reverse(b[1..]) + [b[0]];
      assert r[..|r| - 1] == Reverse(b[1..]);
    }
  }

  /** In the order of the array the first byte counts most if that is big-endian, and least if not; the bytes are
      the only ones of their number with that value. */
  lemma WrittenIff(v: nat, b: seq<Byte>, endian: Endian, host: Endian)
    requires v < Pow256(|b|)
    ensures b == Write(v, |b|, endian, host) <==>
              (if endian == Big then FromHighFirst(b) else FromLowFirst(b)) == v
  {
    SameOnEveryHost(v, |b|, endian, host);
    BytesRoundTrip(v, |b|);
    ReversedValue(LowFirst(v, |b|));
    ValueRoundTrip(b);
    ValueRoundTrip(Reverse(b));
    ReversedValue(Reverse(b));
    ReverseTwice(b);
    ReverseTwice(LowFirst(v, |b|));
  }

  /** So one host reads what another wrote. */
  lemma FixedRoundTrip(v: nat, n: nat, endian: Endian, writer: Endian, reader: Endian)
    requires v < Pow256(n)
    ensures |Write(v, n, endian, writer)| == n
    ensures Read(Write(v, n, endian, writer), endian, reader) == v
  {
    SameOnEveryHost(v, n, endian, writer);
    SwapSwaps(v, n);
    ReverseTwice(LowFirst(v, n));
    BytesRoundTrip(v, n);
  }

  /** As written a host reads back what it wrote itself on a big-endian host, and on a
      little-endian one only the integers that read the same in both byte orders. */
  lemma FixedAsWrittenIff(v: nat, n: nat, endian: Endian, host: Endian)
    requires v < Pow256(n)
    ensures ReadAsWritten(Write(v, n, endian, host), endian, host) == v <==>
            host == Big || ByteSwap(v, n) == v
  {
    SameOnEveryHost(v, n, endian, host);
    SwapSwaps(v, n);
    ReverseTwice(LowFirst(v, n));
    BytesRoundTrip(v, n);
    FixedRoundTrip(v, n, endian, host, host);
  }
}
