/** What a `ByteArray` is meant to be: one flat sequence of bytes with a cursor. */
module ByteFlat {
  import opened Options
  import opened Varint

  /** `m` with `s` laid over it from `at` on. */
  function Overwrite<T>(m: seq<T>, at: nat, s: seq<T>): (r: seq<T>)
    requires at + |s| <= |m|
    ensures |r| == |m|
  {
    m[..at] + s + m[at + |s|..]
  }

  lemma OverwriteInTwo<T>(m: seq<T>, at: nat, s: seq<T>, t: seq<T>)
    requires at + |s| + |t| <= |m|
    ensures Overwrite(Overwrite(m, at, s), at + |s|, t) == Overwrite(m, at, s + t)
  {
  }

  function Zeros(n: nat): (z: seq<Byte>)
    ensures |z| == n
  {
    seq(n, i => 0)
  }

  /** Where node `k` starts: `k * node`, one node at a time. */
  function Start(k: nat, node: nat): nat {
    if k == 0 then 0 else node + Start(k - 1, node)
  }

  lemma {:induction false} StartIsProduct(k: nat, node: nat)
    ensures Start(k, node) == k * node
  {
    if k > 0 { StartIsProduct(k - 1, node); }
  }

  /** `ceil(1.0 * count / node)`: the nodes that `count` bytes take. */
  function Nodes(count: nat, node: nat): nat
    requires node > 0
  {
    if count == 0 then 0 else if count <= node then 1 else 1 + Nodes(count - node, node)
  }

  lemma {:induction false} RoundUp(count: nat, node: nat)
    requires node > 0
    ensures count <= Start(Nodes(count, node), node) < count + node
  {
    if count > node { RoundUp(count - node, node); }
  }

  /** It is the ceiling of the quotient. */
  lemma NodesIsCeiling(count: nat, node: nat)
    requires node > 0
    ensures count <= Nodes(count, node) * node < count + node
  {
    RoundUp(count, node);
    StartIsProduct(Nodes(count, node), node);
  }

  /** `mem` is all the memory of the array, so its length is the capacity; the first `size`
      bytes are the contents. */
  datatype Flat = Flat(mem: seq<Byte>, size: nat, position: nat) {
    predicate Valid() {
      position <= size <= |mem|
    }

    function Contents(): seq<Byte>
      requires Valid()
    {
      mem[..size]
    }

    function Readable(): seq<Byte>
      requires Valid()
    {
      mem[position..size]
    }

    /** Room for `count` bytes from the cursor on, added in whole nodes and cleared. */
    function Grow(count: nat, node: nat): (f: Flat)
      requires Valid() && node > 0
      ensures f.Valid() && position + count <= |f.mem| && mem <= f.mem
      ensures f.size == size && f.position == position
    {
      var available := |mem| - position;
      if available > count then this
      else
        RoundUp(count - available, node);
        this.(mem := mem + Zeros(Start(Nodes(count - available, node), node)))
    }

    function Write(buf: seq<Byte>, node: nat): (f: Flat)
      requires Valid() && node > 0
      ensures f.Valid()
    {
      if buf == [] then this
      else
        var end := position + |buf|;
        Flat(Overwrite(Grow(|buf|, node).mem, position, buf), if end > size then end else size, end)
    }

    function Read(count: nat): Option<(seq<Byte>, Flat)>
      requires Valid()
    {
      if size - position < count then None
      else Some((mem[position..position + count], this.(position := position + count)))
    }

    function ReadAt(count: nat, at: nat): Option<seq<Byte>>
      requires Valid()
    {
      if size < at + count then None else Some(mem[at..at + count])
    }

    function SetPosition(p: nat): Option<Flat>
      requires Valid()
    {
      if p > |mem| then None
      else Some(this.(position := p, size := if p > size then p else size))
    }

    /** Only the first node is kept, with whatever it holds. */
    function Clear(node: nat): (f: Flat)
      requires Valid() && 0 < node <= |mem|
      ensures f.Valid()
    {
      Flat(mem[..node], 0, 0)
    }
  }

  /** What a write does to the contents depends neither on the node size nor on the capacity. */
  lemma WriteContents(f: Flat, buf: seq<Byte>, node: nat)
    requires f.Valid() && node > 0
    ensures var g := f.Write(buf, node);
      && g.position == f.position + |buf|
      && g.Contents() == f.Contents()[..f.position] + buf
           + (if g.position < f.size then f.Contents()[g.position..] else [])
      && g.Readable() == (if g.position < f.size then f.Contents()[g.position..] else [])
  {
  }

  /** Going back after a write and reading as many bytes gives them, and puts the cursor where
      the write left it. */
  lemma WriteBackRead(f: Flat, buf: seq<Byte>, node: nat)
    requires f.Valid() && node > 0
    ensures var g := f.Write(buf, node);
      && g.SetPosition(f.position) == Some(g.(position := f.position))
      && g.(position := f.position).Read(|buf|) == Some((buf, g))
      && g.ReadAt(|buf|, f.position) == Some(buf)
  {
    var g := f.Write(buf, node);
    assert g.mem[f.position..g.position] == buf;
  }

  /** Two writes in a row are one write of the bytes joined, as far as any reader can tell. */
  lemma WritesJoin(f: Flat, a: seq<Byte>, b: seq<Byte>, node: nat)
    requires f.Valid() && node > 0
    ensures var g, h := f.Write(a, node).Write(b, node), f.Write(a + b, node);
      g.Contents() == h.Contents() && g.position == h.position && g.size == h.size
  {
    var m := f.Write(a, node);
    WriteContents(f, a, node);
    WriteContents(m, b, node);
    WriteContents(f, a + b, node);
    assert m.Contents()[..m.position] == f.Contents()[..f.position] + a;
    assert f.Contents()[..f.position] + a + b == f.Contents()[..f.position] + (a + b);
    var end := m.position + |b|;
    if end < f.size { SameBehind(f, a, node, end); }
  }

  lemma SameBehind(f: Flat, buf: seq<Byte>, node: nat, end: nat)
    requires f.Valid() && node > 0 && f.position + |buf| <= end < f.size
    ensures f.Write(buf, node).size == f.size && f.Write(buf, node).Contents()[end..] == f.Contents()[end..]
  {
    assert f.Write(buf, node).Contents()[end..] == f.Contents()[end..];
  }

  function Max(a: nat, b: nat): nat { if a <= b then b else a }

  /** Room is made only when it is wanted, by less than a node more than is missing, and is cleared. */
  lemma GrowsLeast(f: Flat, count: nat, node: nat)
    requires f.Valid() && node > 0
    ensures var g := f.Grow(count, node);
      && (f.position + count <= |f.mem| ==> g == f)
      && |g.mem| < Max(f.position + count + node, |f.mem| + 1)
      && forall i :: |f.mem| <= i < |g.mem| ==> g.mem[i] == 0
  {
    var missing := count - (|f.mem| - f.position);
    if missing >= 0 { RoundUp(missing, node); }
  }

  /** A read gives the next bytes of what is readable, and fails exactly when there are not so many. */
  lemma ReadsIff(f: Flat, count: nat)
    requires f.Valid()
    ensures f.Read(count).Some? <==> count <= |f.Readable()|
    ensures f.Read(count).Some? ==>
              var (bytes, g) := f.Read(count).value;
              f.Readable() == bytes + g.Readable() && |bytes| == count && g.Contents() == f.Contents()
  {
  }

  /** A read at a position gives the bytes of the contents there, and fails exactly behind their end. */
  lemma ReadsAtIff(f: Flat, count: nat, at: nat)
    requires f.Valid()
    ensures f.ReadAt(count, at) == if at + count <= |f.Contents()| then Some(f.Contents()[at..at + count]) else None
  {
    if at + count <= f.size { assert f.mem[..f.size][at..at + count] == f.mem[at..at + count]; }
  }

  /** The cursor goes anywhere within the capacity; behind the end it takes what memory holds there into the
      contents. */
  lemma SeeksIff(f: Flat, p: nat)
    requires f.Valid()
    ensures f.SetPosition(p).Some? <==> p <= |f.mem|
    ensures f.SetPosition(p).Some? ==>
              var g := f.SetPosition(p).value;
              && g.Valid() && g.position == p && g.mem == f.mem
              && g.Contents() == f.Contents() + (if p > f.size then f.mem[f.size..p] else [])
  {
  }

  /** After `clear` nothing is left to read, and writing starts at the front of one node. */
  lemma ClearEmpties(f: Flat, node: nat)
    requires f.Valid() && 0 < node <= |f.mem|
    ensures var g := f.Clear(node);
      && g.Contents() == [] && g.Readable() == [] && g.position == 0 && |g.mem| == node
      && forall buf :: g.Write(buf, node).Contents() == buf
  {
  }
}
