/** ByteArray: a linked list of fixed-size chunks with a cursor, as a flat byte sequence. */
module ByteArrays {
  import opened Chunks

  datatype Result<T> = Ok(value: T) | OutOfRange

  class Node {
    const ptr: array<byte>
    const size: nat
    var next: Node?

    constructor (s: nat)
      ensures fresh(ptr) && ptr.Length == size == s && next == null
    {
      ptr := new byte[s];
      next, size := null, s;
    }
  }

  /** What the chunks hold. */
  ghost function Contents(ns: seq<Node>, memory: set<array<byte>>): (cs: seq<seq<byte>>)
    requires forall k :: 0 <= k < |ns| ==> ns[k].ptr in memory
    reads memory
    ensures |cs| == |ns| && forall k :: 0 <= k < |cs| ==> cs[k] == ns[k].ptr[..]
  {
    if |ns| == 0 then [] else [ns[0].ptr[..]] + Contents(ns[1..], memory)
  }

  method Memcpy(dst: array<byte>, o: nat, bytes: seq<byte>)
    requires o + |bytes| <= dst.Length
    modifies dst
    ensures dst[..] == Patch(old(dst[..]), o, bytes)
  {
    forall k | 0 <= k < |bytes| {
      dst[o + k] := bytes[k];
    }
  }

  /** A flat sequence with bytes written at p, growing as needed. */
  function Overwrite(data: seq<byte>, p: nat, bytes: seq<byte>): (r: seq<byte>)
    requires p <= |data|
    ensures |r| == if p + |bytes| < |data| then |data| else p + |bytes|
  {
    data[..p] + bytes + if p + |bytes| < |data| then data[p + |bytes|..] else []
  }

  /** Capacity grows only when n bytes do not fit behind the position, and then by whole chunks, as few as do. */
  function GrownCapacity(capacity: nat, position: nat, n: nat, b: nat): int
    requires b > 0 && position <= capacity
  {
    if capacity - position >= n then capacity
    else capacity + Span((n - (capacity - position) + b - 1) / b, b)
  }

  /** The bytes are where they were written, and everywhere else is what was there. */
  lemma OverwrittenAt(data: seq<byte>, p: nat, bytes: seq<byte>, k: nat)
    requires p <= |data| && k < |Overwrite(data, p, bytes)|
    ensures Overwrite(data, p, bytes)[k] == if p <= k < p + |bytes| then bytes[k - p] else data[k]
  {
  }

  /** The new capacity holds the bytes, is the old one and some whole chunks, and not one chunk too many. */
  lemma GrowsAsNeeded(capacity: nat, position: nat, n: nat, b: nat)
    requires b > 0 && position <= capacity
    ensures var c := GrownCapacity(capacity, position, n, b);
            && position + n <= c
            && (capacity - position >= n ==> c == capacity)
            && (capacity - position < n ==> c - b < position + n && exists k: nat :: c == capacity + Span(k, b))
  {
    if capacity - position < n {
      var need := n - (capacity - position);
      var k: nat := (need + b - 1) / b;
      CeilCovers(need, b);
      SpanNext(k - 1, b);
      assert GrownCapacity(capacity, position, n, b) == capacity + Span(k, b);
    }
  }

  lemma OverwrittenMemory(was: seq<byte>, mem: seq<byte>, size: nat, p: nat, bytes: seq<byte>)
    requires p <= size <= |was| <= |mem| && was <= mem && p + |bytes| <= |mem|
    ensures var size' := if p + |bytes| > size then p + |bytes| else size;
            Patch(mem, p, bytes)[..size'] == Overwrite(was[..size], p, bytes)
  {
  }

  lemma SubSlice(m: seq<byte>, n: nat, p: nat, q: nat)
    requires p <= q <= n <= |m|
    ensures m[..n][p..q] == m[p..q]
  {
  }

  /** A stretch of memory handed to the socket. */
  datatype IoVec = IoVec(base: array<byte>, off: nat, len: nat)

  /** The stretches that cover n bytes from offset o of chunk c on. */
  ghost function Segments(ns: seq<Node>, b: nat, c: nat, o: nat, n: nat): seq<IoVec>
    requires o < b
    decreases if c < |ns| then |ns| - c else 0
  {
    if n == 0 || c >= |ns| then []
    else if n <= b - o then [IoVec(ns[c].ptr, o, n)]
    else [IoVec(ns[c].ptr, o, b - o)] + Segments(ns, b, c + 1, 0, n - (b - o))
  }

  /** The first of those stretches, and the rest. */
  lemma NextSegment(ns: seq<Node>, b: nat, c: nat, o: nat, n: nat, part: nat)
    requires o < b && c < |ns| && n > 0 && part == if b - o >= n then n else b - o
    ensures Segments(ns, b, c, o, n) ==
              [IoVec(ns[c].ptr, o, part)] + if part < n then Segments(ns, b, c + 1, 0, n - part) else []
  {
  }

  class ByteArray {
    const baseSize: nat
    const root: Node
    var position: nat
    var capacity: nat
    var size: nat
    var cur: Node?
    /** The chunk the cursor is in, counted from the root. */
    ghost var index: nat
    /** The chunks in list order; the same as a set; and the memory they point to. */
    ghost var nodes: seq<Node>
    ghost var links: set<Node>
    ghost var memory: set<array<byte>>
    /** Which chunk a piece of memory belongs to. */
    ghost var place: map<array<byte>, nat>

    /** Chunk k is a node of its own with memory of its own. */
    ghost predicate Owned()
      reads `nodes, `links, `memory, `place
    {
      && |nodes| > 0 && nodes[0] == root
      && forall k :: 0 <= k < |nodes| ==>
           && nodes[k] in links && nodes[k].size == nodes[k].ptr.Length == baseSize
           && nodes[k].ptr in memory && nodes[k].ptr in place && place[nodes[k].ptr] == k
    }

    ghost predicate Chained()
      requires Owned()
      reads `nodes, `links, `memory, `place, links
    {
      && (forall k {:trigger nodes[k].next} :: 0 <= k < |nodes| - 1 ==> nodes[k].next == nodes[k + 1])
      && nodes[|nodes| - 1].next == null
    }

    ghost predicate Listed()
      reads `nodes, `links, `memory, `place, links
    {
      Owned() && Chained()
    }

    /** The chunks are in order and the cursor is in the chunk of the position. */
    ghost predicate Placed()
      reads this, links
    {
      && baseSize > 0
      && Listed()
      && position <= capacity == Span(|nodes|, baseSize)
      && AtCursor(position, index)
      && cur == if index < |nodes| then nodes[index] else null
    }

    ghost predicate Valid()
      reads this, links
    {
      Placed() && position <= size <= capacity
    }

    /** Position p lies in chunk c, which is one past the last chunk when p is the capacity. */
    ghost predicate AtCursor(p: nat, c: nat)
      reads `nodes
    {
      c <= |nodes| && Span(c, baseSize) <= p < Span(c, baseSize) + baseSize
    }

    /** All bytes of all chunks. */
    ghost function Mem(): seq<byte>
      requires Listed()
      reads `nodes, `links, `memory, `place, links, memory
    {
      Concat(Contents(nodes, memory))
    }

    /** The flat byte sequence the object stands for. */
    ghost function Data(): (d: seq<byte>)
      requires Valid()
      reads this, links, memory
      ensures |d| == size
    {
      MemLength();
      Mem()[..size]
    }

    lemma MemLength()
      requires Listed()
      ensures Uniform(Contents(nodes, memory), baseSize) && |Mem()| == Span(|nodes|, baseSize)
    {
      ConcatLength(Contents(nodes, memory), baseSize);
    }

    lemma CursorAtEnd()
      requires Placed()
      ensures cur == null <==> position == capacity
      ensures index == |nodes| <==> position == capacity
      ensures cur != null ==> cur.size == baseSize
    {
      SpanNext(index, baseSize);
      SpanMonotone(index + 1, |nodes|, baseSize);
    }

    /** The cursor is the chunk of the position, and points nowhere exactly at the end. */
    lemma CursorIsChunk()
      requires Placed()
      ensures cur == null <==> position == capacity
      ensures position < capacity ==> position / baseSize < |nodes| && cur == nodes[position / baseSize]
      ensures position % baseSize == position - Span(index, baseSize)
    {
      CursorAtEnd();
      Locate(position, baseSize, index, position - Span(index, baseSize));
    }

    constructor (baseSize: nat)
      requires baseSize > 0
      ensures Valid() && fresh(links) && fresh(memory) && this.baseSize == baseSize
      ensures Data() == [] && position == size == 0 && capacity == baseSize
    {
      this.baseSize := baseSize;
      position, capacity, size := 0, baseSize, 0;
      var node := new Node(baseSize);
      root, cur, nodes, links, memory, place := node, node, [node], {node}, {node.ptr}, map[node.ptr := 0];
      index := 0;
      new;
      SpanNext(0, baseSize);
    }

    // -------------------------------------------------------------------------------------
    // Moving bytes in and out of one chunk
    // -------------------------------------------------------------------------------------

    method CopyIn(dst: array<byte>, ghost c: nat, o: nat, bytes: seq<byte>)
      requires Listed() && c < |nodes| && dst == nodes[c].ptr && o + |bytes| <= baseSize
      modifies memory
      ensures Listed() && 0 <= Span(c, baseSize) + o && Span(c, baseSize) + o + |bytes| <= |old(Mem())|
      ensures Mem() == Patch(old(Mem()), Span(c, baseSize) + o, bytes)
    {
      hide Contents, Patch, Chained, Span;
      ghost var cs := Contents(nodes, memory);
      MemLength();
      Memcpy(dst, o, bytes);
      ghost var cs' := Contents(nodes, memory);
      assert forall k :: 0 <= k < |nodes| && k != c ==> cs'[k] == cs[k];
      assert cs' == cs[c := Patch(cs[c], o, bytes)];
      ChunkPatch(cs, baseSize, c, o, bytes);
    }

    method CopyOut(node: Node, ghost c: nat, o: nat, n: nat) returns (bytes: seq<byte>)
      requires Listed() && c < |nodes| && node == nodes[c] && o + n <= baseSize
      ensures 0 <= Span(c, baseSize) + o && Span(c, baseSize) + o + n <= |Mem()|
      ensures bytes == Mem()[Span(c, baseSize) + o..Span(c, baseSize) + o + n]
    {
      MemLength();
      ChunkSlice(Contents(nodes, memory), baseSize, c, o, n);
      bytes := node.ptr[o..o + n];
    }

    // -------------------------------------------------------------------------------------
    // Capacity
    // -------------------------------------------------------------------------------------

    method LastNode() returns (tmp: Node)
      requires Listed()
      ensures |nodes| > 0 && tmp == nodes[|nodes| - 1] && tmp in links
    {
      tmp := root;
      ghost var k := 0;
      while tmp.next != null
        invariant 0 <= k < |nodes| && tmp == nodes[k]
        decreases |nodes| - k
      {
        tmp := tmp.next;
        k := k + 1;
      }
    }

    /** Links one more chunk behind the last one. */
    method AppendNode(last: Node) returns (node: Node)
      requires Listed() && last == nodes[|nodes| - 1] && capacity == Span(|nodes|, baseSize)
      modifies this`capacity, this`nodes, this`links, this`memory, this`place, last`next
      ensures Listed() && nodes == old(nodes) + [node] && capacity == Span(|nodes|, baseSize)
      ensures fresh(node) && fresh(node.ptr) && links == old(links) + {node} && memory == old(memory) + {node.ptr}
      ensures capacity == old(capacity) + baseSize
      ensures old(Mem()) <= Mem()
    {
      hide Concat, Contents, Span;
      ghost var was, cs := nodes, Contents(nodes, memory);
      node := new Node(baseSize);
      last.next := node;
      nodes, links, memory, place := nodes + [node], links + {node}, memory + {node.ptr}, place[node.ptr := |nodes|];
      capacity := capacity + baseSize;
      SpanNext(|was|, baseSize);
      ghost var cs' := Contents(nodes, memory);
      assert forall k :: 0 <= k < |cs| ==> cs'[k] == cs[k];
      ConcatPrefix(cs, cs');
    }

    /** The loop of addCapacity; the first new chunk is what the cursor may have been waiting for. */
    method Grow(count: nat) returns (first: Node?)
      requires Listed() && capacity == Span(|nodes|, baseSize)
      modifies this`capacity, this`nodes, this`links, this`memory, this`place, links
      ensures Listed() && capacity == Span(|nodes|, baseSize)
      ensures |nodes| == |old(nodes)| + count && forall k :: 0 <= k < |old(nodes)| ==> nodes[k] == old(nodes)[k]
      ensures first == if count == 0 then null else nodes[|old(nodes)|]
      ensures fresh(links - old(links)) && fresh(memory - old(memory))
      ensures old(Mem()) <= Mem()
    {
      hide Concat, Contents, Chained, Owned, Span;
      var tmp := LastNode();
      first := null;
      for i := 0 to count
        invariant Listed() && |nodes| > 0 && tmp == nodes[|nodes| - 1] && tmp in links
        invariant capacity == Span(|nodes|, baseSize)
        invariant |nodes| == |old(nodes)| + i && forall k :: 0 <= k < |old(nodes)| ==> nodes[k] == old(nodes)[k]
        invariant first == if i == 0 then null else nodes[|old(nodes)|]
        invariant fresh(links - old(links)) && fresh(memory - old(memory))
        invariant old(Mem()) <= Mem()
      {
        tmp := AppendNode(tmp);
        if first == null {
          first := tmp;
        }
      }
    }

    /** New chunks, and a cursor that had run off the end moves to the first of them. */
    method GrowAtCursor(count: nat)
      requires Valid() && count > 0
      modifies this`capacity, this`cur, this`nodes, this`links, this`memory, this`place, links
      ensures Valid() && fresh(links - old(links)) && fresh(memory - old(memory))
      ensures old(Mem()) <= Mem() && capacity == old(capacity) + Span(count, baseSize)
    {
      hide Concat, Contents, Owned, Chained, Span;
      SpanAdds(|nodes|, count, baseSize);
      CursorAtEnd();
      var atEnd := capacity - position == 0;
      var first := Grow(count);
      if atEnd {
        cur := first;
      }
    }

    /** The number of new chunks is rounded up. */
    method AddCapacity(n: nat)
      requires Valid()
      modifies this`capacity, this`cur, this`nodes, this`links, this`memory, this`place, links
      ensures Valid() && fresh(links - old(links)) && fresh(memory - old(memory))
      ensures old(Mem()) <= Mem() && |old(Mem())| == old(capacity) <= capacity == |Mem()|
      ensures position + n <= capacity == GrownCapacity(old(capacity), position, n, baseSize)
    {
      MemLength();
      var left := capacity - position;
      if n == 0 || left >= n {
        return;
      }
      var count := (n - left + baseSize - 1) / baseSize;
      CeilCovers(n - left, baseSize);
      SpanNext(count - 1, baseSize);
      hide Concat, Contents, Owned, Chained, Span;
      GrowAtCursor(count);
      MemLength();
    }

    // -------------------------------------------------------------------------------------
    // Writing and reading at the cursor
    // -------------------------------------------------------------------------------------

    /** Offset of the position in its chunk. */
    ghost function Offset(): int
      reads `position, `index
    {
      position - Span(index, baseSize)
    }

    /** Copies bytes that fit into the current chunk and moves on when it is full. */
    method Put(npos: nat, bytes: seq<byte>)
      requires Placed() && npos == Offset() && npos + |bytes| <= baseSize && index < |nodes|
      modifies this`position, this`cur, this`index, memory
      ensures Placed() && position == old(position) + |bytes| <= |old(Mem())|
      ensures npos + |bytes| == baseSize ==> Offset() == 0
      ensures Mem() == Patch(old(Mem()), old(position), bytes)
    {
      hide Concat, Contents, Chained, Span;
      CopyIn(cur.ptr, index, npos, bytes);
      Advance(npos, |bytes|);
    }

    /** The cursor's part of a copy of n bytes. */
    method Advance(npos: nat, n: nat)
      requires Placed() && npos == Offset() && npos + n <= baseSize && index < |nodes|
      modifies this`position, this`cur, this`index
      ensures Placed() && position == old(position) + n
      ensures npos + n == baseSize ==> Offset() == 0
    {
      hide Span;
      SpanNext(index, baseSize);
      SpanMonotone(index + 1, |nodes|, baseSize);
      if cur.size == npos + n {
        assert index + 1 < |nodes| ==> nodes[index].next == nodes[index + 1];
        cur := cur.next;
        index := index + 1;
      }
      position := position + n;
    }

    /** Where the position is in its chunk, and how much room the chunk has from there. */
    method CursorRoom() returns (npos: nat, ncap: nat)
      requires Placed() && position < capacity
      ensures npos == Offset() && npos + ncap == baseSize && index < |nodes|
    {
      CursorAtEnd();
      CursorIsChunk();
      npos := position % baseSize;
      ncap := cur.size - npos;
    }

    /** The loop of write, over capacity that is already there. */
    method WriteChunks(buf: seq<byte>)
      requires Placed() && position + |buf| <= capacity && position < capacity
      modifies this`position, this`cur, this`index, memory
      ensures Placed() && position == old(position) + |buf|
      ensures |old(Mem())| == capacity && Mem() == Patch(old(Mem()), old(position), buf)
    {
      hide Concat, Contents, Chained, Owned, Span, Patch;
      MemLength();
      PatchNothing(Mem(), position);
      var npos, ncap := CursorRoom();
      var bpos, left := 0, |buf|;
      while left > 0
        invariant 0 <= left && bpos + left == |buf| && position == old(position) + bpos
        invariant Placed() && Mem() == Patch(old(Mem()), old(position), buf[..bpos])
        invariant left > 0 ==> npos == Offset() && ncap == baseSize - npos && index < |nodes|
      {
        var n := if ncap >= left then left else ncap;
        PatchTwice(old(Mem()), old(position), buf[..bpos], buf[bpos..bpos + n]);
        assert buf[..bpos] + buf[bpos..bpos + n] == buf[..bpos + n];
        Put(npos, buf[bpos..bpos + n]);
        bpos, left := bpos + n, left - n;
        CursorAtEnd();
        if left > 0 {
          npos, ncap := 0, cur.size;
        }
      }
      assert buf[..bpos] == buf;
    }

    method Write(buf: seq<byte>)
      requires Valid()
      modifies this, links, memory
      ensures Valid() && fresh(links - old(links)) && fresh(memory - old(memory))
      ensures position == old(position) + |buf|
      ensures Data() == Overwrite(old(Data()), old(position), buf)
      ensures capacity == GrownCapacity(old(capacity), old(position), |buf|, baseSize)
    {
      hide Concat, Contents, Chained, Owned, Span, Patch, Listed;
      MemLength();
      if |buf| == 0 {
        return;
      }
      AddCapacity(|buf|);
      OverwrittenMemory(old(Mem()), Mem(), size, position, buf);
      WriteChunks(buf);
      if position > size {
        size := position;
      }
    }

    /** The loop of read. */
    method ReadChunks(n: nat) returns (buf: seq<byte>)
      requires Placed() && position + n <= capacity && position < capacity
      modifies this`position, this`cur, this`index
      ensures Placed() && position == old(position) + n <= |Mem()| && buf == Mem()[old(position)..position]
    {
      hide Concat, Contents, Chained, Owned, Span;
      MemLength();
      var npos, ncap := CursorRoom();
      buf := [];
      var left := n;
      while left > 0
        invariant 0 <= left <= n && position == old(position) + n - left
        invariant Placed() && buf == Mem()[old(position)..position]
        invariant left > 0 ==> npos == Offset() && ncap == baseSize - npos && index < |nodes|
      {
        var m := if ncap >= left then left else ncap;
        ghost var p := position;
        var bytes := Get(npos, m);
        assert Mem()[old(position)..p] + Mem()[p..position] == Mem()[old(position)..position];
        buf, left := buf + bytes, left - m;
        CursorAtEnd();
        if left > 0 {
          npos, ncap := 0, cur.size;
        }
      }
    }

    /** Copies bytes out of the current chunk and moves on when it is used up. */
    method Get(npos: nat, n: nat) returns (bytes: seq<byte>)
      requires Placed() && npos == Offset() && npos + n <= baseSize && index < |nodes|
      modifies this`position, this`cur, this`index
      ensures Placed() && position == old(position) + n <= |Mem()|
      ensures npos + n == baseSize ==> Offset() == 0
      ensures bytes == Mem()[old(position)..position]
    {
      hide Concat, Contents, Chained, Owned, Span;
      bytes := CopyOut(cur, index, npos, n);
      Advance(npos, n);
    }

    /** Reading nothing at the very end of the last chunk would follow a null cursor. */
    method Read(n: nat) returns (r: Result<seq<byte>>)
      requires Valid()
      requires n > size - position || n > 0 || position < capacity
      modifies this`position, this`cur, this`index
      ensures Valid() && Data() == old(Data())
      ensures n > size - old(position) ==> r == OutOfRange && position == old(position)
      ensures n <= size - old(position) ==>
                position == old(position) + n && r == Ok(Data()[old(position)..old(position) + n])
    {
      hide Concat, Contents, Chained, Owned, Span, Listed;
      if n > size - position {
        return OutOfRange;
      }
      MemLength();
      var buf := ReadChunks(n);
      assert buf == Data()[old(position)..position];
      r := Ok(buf);
    }

    /** Walks the cursor from the root to the chunk of position v. */
    method Seek(v: nat)
      requires baseSize > 0 && Listed() && v <= capacity == Span(|nodes|, baseSize)
      modifies this`cur, this`index
      ensures AtCursor(v, index) && cur == if index < |nodes| then nodes[index] else null
    {
      hide Concat, Contents, Span;
      var rest := v;
      cur, index := root, 0;
      SpanZero(baseSize);
      while rest > cur.size
        invariant index < |nodes| && cur == nodes[index] && Span(index, baseSize) + rest == v && rest >= 0
        decreases rest
      {
        SpanNext(index, baseSize);
        SpanMonotone(|nodes|, index + 1, baseSize);
        rest := rest - cur.size;
        cur := cur.next;
        index := index + 1;
      }
      SpanNext(index, baseSize);
      if rest == cur.size {
        cur := cur.next;
        index := index + 1;
      }
    }

    method SetPosition(v: nat) returns (r: Result<()>)
      requires Valid()
      modifies this`position, this`size, this`cur, this`index
      ensures Valid() && Mem() == old(Mem())
      ensures v > capacity ==> r == OutOfRange && position == old(position) && size == old(size)
      ensures v <= capacity ==> r == Ok(()) && position == v && size == if v > old(size) then v else old(size)
      ensures |Mem()| == capacity && Data() == Mem()[..size]
    {
      hide Concat, Contents, Chained, Owned, Span, Listed;
      MemLength();
      if v > capacity {
        return OutOfRange;
      }
      position := v;
      if position > size {
        size := position;
      }
      Seek(v);
      r := Ok(());
    }

    /** The loop of clear, which deletes every chunk behind the root. */
    method WalkBehindRoot()
      requires Listed()
      modifies this`cur
    {
      hide Concat, Contents;
      var tmp := root.next;
      ghost var k := 1;
      assert |nodes| > 1 ==> nodes[0].next == nodes[1];
      while tmp != null
        invariant 1 <= k <= |nodes| && tmp == if k < |nodes| then nodes[k] else null
        decreases |nodes| - k
      {
        cur := tmp;
        tmp := tmp.next;
        k := k + 1;
      }
    }

    method KeepRoot()
      requires Owned()
      modifies this`nodes, this`links, this`memory, this`place, root
      ensures Listed() && |nodes| == 1 && links <= old(links) && memory <= old(memory)
    {
      root.next := null;
      nodes, links, memory, place := [root], {root}, {root.ptr}, map[root.ptr := 0];
    }

    /** Back to one empty chunk. */
    method Clear()
      requires Valid()
      modifies this, root
      ensures Valid() && links <= old(links) && memory <= old(memory)
      ensures position == size == 0 && capacity == baseSize && Data() == []
    {
      hide Concat, Contents, Span, Chained;
      position, size := 0, 0;
      capacity := baseSize;
      WalkBehindRoot();
      cur := root;
      KeepRoot();
      index := 0;
      SpanZero(baseSize);
      SpanNext(0, baseSize);
    }

    // -------------------------------------------------------------------------------------
    // Scatter and gather
    // -------------------------------------------------------------------------------------

    /** The loop of getReadBuffers and getWriteBuffers: the stretches from the cursor on. */
    method Buffers(len: nat) returns (iovs: seq<IoVec>)
      requires Placed() && 0 < len && position + len <= capacity
      ensures 0 <= Offset() < baseSize && iovs == Segments(nodes, baseSize, index, Offset(), len)
    {
      hide Concat, Contents, Span, Segments;
      var npos, ncap := CursorRoom();
      iovs := [];
      var node: Node? := cur;
      var left: nat := len;
      ghost var c: nat := index;
      while left > 0
        invariant c <= |nodes| && 0 <= npos < baseSize
        invariant left > 0 ==> c < |nodes| && node == nodes[c] && npos + ncap == baseSize
        invariant left > 0 ==> Span(c, baseSize) + npos + left == position + len
        invariant left > 0 ==>
                    iovs + Segments(nodes, baseSize, c, npos, left) == Segments(nodes, baseSize, index, Offset(), len)
        invariant left == 0 ==> iovs == Segments(nodes, baseSize, index, Offset(), len)
      {
        SpanNext(c, baseSize);
        SpanMonotone(|nodes|, c + 1, baseSize);
        var n := if ncap >= left then left else ncap;
        NextSegment(nodes, baseSize, c, npos, left, n);
        ghost var done := iovs;
        var v := IoVec(node.ptr, npos, n);
        iovs := iovs + [v];
        left := left - n;
        if left > 0 {
          assert done + ([v] + Segments(nodes, baseSize, c + 1, 0, left))
              == iovs + Segments(nodes, baseSize, c + 1, 0, left);
          node := node.next;
          c := c + 1;
          npos, ncap := 0, node.size;
        }
      }
    }

    /** getReadBuffers: the bytes from the cursor on, at most len of them. */
    method GetReadBuffers(len: nat) returns (iovs: seq<IoVec>, n: nat)
      requires Valid()
      ensures n == Min(len, size - position) && 0 <= Offset() < baseSize
      ensures iovs == Segments(nodes, baseSize, index, Offset(), n)
    {
      hide Concat, Contents, Span, Chained, Owned;
      n := Min(len, size - position);
      iovs := [];
      if n > 0 {
        iovs := Buffers(n);
      }
    }

    /** getWriteBuffers: room for len bytes from the cursor on. */
    method GetWriteBuffers(len: nat) returns (iovs: seq<IoVec>)
      requires Valid()
      modifies this`capacity, this`cur, this`nodes, this`links, this`memory, this`place, links
      ensures Valid() && fresh(links - old(links)) && fresh(memory - old(memory)) && position + len <= capacity
      ensures old(Mem()) <= Mem() && |old(Mem())| == old(capacity)
      ensures 0 <= Offset() < baseSize && iovs == Segments(nodes, baseSize, index, Offset(), len)
    {
      hide Concat, Contents, Span, Chained, Owned;
      MemLength();
      iovs := [];
      if len > 0 {
        AddCapacity(len);
        iovs := Buffers(len);
      }
    }

    static function Min(a: int, b: int): int {
      if a < b then a else b
    }

    /** What the kernel does with read buffers: it takes the bytes of the stretches in order. */
    method Gather(iovs: seq<IoVec>, ghost c: nat, ghost o: nat, n: nat) returns (bytes: seq<byte>)
      requires baseSize > 0 && Listed() && o < baseSize && Span(c, baseSize) + o + n <= Span(|nodes|, baseSize)
      requires iovs == Segments(nodes, baseSize, c, o, n)
      ensures 0 <= Span(c, baseSize) + o && Span(c, baseSize) + o + n <= |Mem()|
      ensures bytes == Mem()[Span(c, baseSize) + o..Span(c, baseSize) + o + n]
      decreases n
    {
      hide Concat, Contents, Span, Chained;
      MemLength();
      bytes := [];
      if n > 0 {
        SpanNext(c, baseSize);
        SpanMonotone(|nodes|, c, baseSize);
        SpanMonotone(|nodes|, c + 1, baseSize);
        var v := iovs[0];
        ghost var cs := Contents(nodes, memory);
        ChunkSlice(cs, baseSize, c, o, v.len);
        bytes := v.base[v.off..v.off + v.len];
        if v.len < n {
          assert iovs[1..] == Segments(nodes, baseSize, c + 1, 0, n - v.len);
          var rest := Gather(iovs[1..], c + 1, 0, n - v.len);
          bytes := bytes + rest;
        }
      }
    }

    /** What the kernel does with write buffers: it fills the stretches in order as far as it gets. */
    method Scatter(iovs: seq<IoVec>, ghost c: nat, ghost o: nat, ghost n: nat, bytes: seq<byte>)
      requires baseSize > 0 && Listed() && o < baseSize && Span(c, baseSize) + o + n <= Span(|nodes|, baseSize)
      requires iovs == Segments(nodes, baseSize, c, o, n) && |bytes| <= n
      modifies memory
      ensures Listed() && 0 <= Span(c, baseSize) + o && Span(c, baseSize) + o + |bytes| <= |old(Mem())|
      ensures Mem() == Patch(old(Mem()), Span(c, baseSize) + o, bytes)
      decreases |bytes|
    {
      hide Concat, Contents, Span, Chained, Patch;
      MemLength();
      PatchNothing(Mem(), Span(c, baseSize) + o);
      if |bytes| > 0 {
        SpanNext(c, baseSize);
        SpanMonotone(|nodes|, c, baseSize);
        SpanMonotone(|nodes|, c + 1, baseSize);
        var v := iovs[0];
        var m := Min(v.len, |bytes|);
        CopyIn(v.base, c, v.off, bytes[..m]);
        if m < |bytes| {
          assert iovs[1..] == Segments(nodes, baseSize, c + 1, 0, n - m);
          PatchTwice(old(Mem()), Span(c, baseSize) + o, bytes[..m], bytes[m..]);
          Scatter(iovs[1..], c + 1, 0, n - m, bytes[m..]);
          assert bytes[..m] + bytes[m..] == bytes;
        } else {
          assert bytes[..m] == bytes;
        }
      }
    }

    /** SocketStream::read: what arrives through the write buffers ends up where write would put it. */
    method ReceiveInto(length: nat, incoming: seq<byte>) returns (rt: nat)
      requires Valid() && |incoming| <= length
      modifies this, links, memory
      ensures Valid() && fresh(links - old(links)) && fresh(memory - old(memory))
      ensures rt == |incoming| && position == old(position) + |incoming|
      ensures Data() == Overwrite(old(Data()), old(position), incoming)
    {
      hide Concat, Contents, Span, Chained, Owned, Patch;
      MemLength();
      var iovs := GetWriteBuffers(length);
      MemLength();
      OverwrittenMemory(old(Mem()), Mem(), size, position, incoming);
      Scatter(iovs, index, Offset(), length, incoming);
      rt := |incoming|;
      if rt > 0 {
        var _ := SetPosition(position + rt);
      }
    }

    /** SocketStream::write: what leaves through the read buffers is what read would return. */
    method SendFrom(length: nat, accepted: nat) returns (sent: seq<byte>)
      requires Valid() && accepted <= Min(length, size - position)
      modifies this`position, this`size, this`cur, this`index
      ensures Valid() && Data() == old(Data())
      ensures position == old(position) + accepted <= size && sent == Data()[old(position)..position]
    {
      hide Concat, Contents, Span, Chained, Owned;
      MemLength();
      var iovs, n := GetReadBuffers(length);
      var all := Gather(iovs, index, Offset(), n);
      sent := all[..accepted];
      assert Span(index, baseSize) + Offset() == position;
      SubSlice(Mem(), size, position, position + accepted);
      assert sent == Mem()[position..position + accepted];
      if accepted > 0 {
        var _ := SetPosition(position + accepted);
      }
    }
  }

  // ---------------------------------------------------------------------------------------
  // Any sequence of operations
  // ---------------------------------------------------------------------------------------

  /** A flat byte sequence with a cursor, and the capacity that limits where the cursor may be set. */
  datatype Flat = Flat(data: seq<byte>, position: nat, capacity: nat)

  datatype Op = WriteOp(bytes: seq<byte>) | ReadOp(n: nat) | SetPositionOp(v: nat)

  datatype Output = Wrote | ReadBack(bytes: seq<byte>) | Moved | Failed

  ghost predicate FlatStep(b: nat, f: Flat, op: Op, f': Flat, out: Output)
    requires b > 0
  {
    && f.position <= |f.data| <= f.capacity
    && match op
       case WriteOp(bytes) =>
         && out == Wrote && f'.data == Overwrite(f.data, f.position, bytes) && f'.position == f.position + |bytes|
         && f'.capacity == GrownCapacity(f.capacity, f.position, |bytes|, b)
       case ReadOp(n) =>
         if f.position + n <= |f.data|
         then f' == f.(position := f.position + n) && out == ReadBack(f.data[f.position..f.position + n])
         else f' == f && out == Failed
       case SetPositionOp(v) =>
         if v <= f.capacity
         then && out == Moved && f'.position == v && f'.capacity == f.capacity && f.data <= f'.data
              && |f'.data| == (if v > |f.data| then v else |f.data|)
         else f' == f && out == Failed
  }

  ghost predicate FlatRun(b: nat, fs: seq<Flat>, ops: seq<Op>, outs: seq<Output>)
    requires b > 0
  {
    |fs| == |ops| + 1 == |outs| + 1 && forall k :: 0 <= k < |ops| ==> FlatStep(b, fs[k], ops[k], fs[k + 1], outs[k])
  }

  ghost function FlatOf(ba: ByteArray): Flat
    requires ba.Valid()
    reads ba, ba.links, ba.memory
  {
    Flat(ba.Data(), ba.position, ba.capacity)
  }

  /** How much there is, where the cursor stands and how far it may go. */
  datatype Extent = Extent(size: nat, position: nat, capacity: nat)

  function ExtentAfter(b: nat, e: Extent, op: Op): Extent
    requires b > 0 && e.position <= e.size <= e.capacity
  {
    match op
    case WriteOp(bytes) =>
      var end := e.position + |bytes|;
      Extent(if end < e.size then e.size else end, end, GrownCapacity(e.capacity, e.position, |bytes|, b))
    case ReadOp(n) => if e.position + n <= e.size then e.(position := e.position + n) else e
    case SetPositionOp(v) => if v <= e.capacity then Extent(if v < e.size then e.size else v, v, e.capacity) else e
  }

  /** No read of nothing comes when the cursor stands at the very end of the last chunk. */
  ghost predicate Readable(b: nat, e: Extent, ops: seq<Op>)
    decreases |ops|
  {
    && b > 0 && e.position <= e.size <= e.capacity
    && (|ops| > 0 ==>
          (ops[0] == ReadOp(0) ==> e.position < e.capacity) && Readable(b, ExtentAfter(b, e, ops[0]), ops[1..]))
  }

  function ExtentOf(f: Flat): Extent {
    Extent(|f.data|, f.position, f.capacity)
  }

  lemma FlatExtent(b: nat, f: Flat, op: Op, f': Flat, out: Output)
    requires b > 0 && FlatStep(b, f, op, f', out)
    ensures f.position <= |f.data| <= f.capacity && ExtentOf(f') == ExtentAfter(b, ExtentOf(f), op)
  {
    hide GrownCapacity;
  }

  method Perform(ba: ByteArray, op: Op) returns (out: Output)
    requires ba.Valid() && (op == ReadOp(0) ==> ba.position < ba.capacity)
    modifies ba, ba.links, ba.memory
    ensures ba.Valid() && fresh(ba.links - old(ba.links)) && fresh(ba.memory - old(ba.memory))
    ensures FlatStep(ba.baseSize, old(FlatOf(ba)), op, FlatOf(ba), out)
  {
    hide Concat, Contents, ByteArray.Chained, ByteArray.Owned, Span, Overwrite, GrownCapacity;
    match op
    case WriteOp(bytes) =>
      ba.Write(bytes);
      out := Wrote;
    case ReadOp(n) =>
      var r := ba.Read(n);
      out := if r.Ok? then ReadBack(r.value) else Failed;
    case SetPositionOp(v) =>
      ghost var was, mem := ba.Data(), ba.Mem();
      var r := ba.SetPosition(v);
      assert mem == ba.Mem();
      out := if r.Ok? then Moved else Failed;
  }

  /** For every chunk size and every sequence of writes, reads and cursor moves that keeps clear of reading
      nothing at the null cursor, the outputs and the
      final bytes, position and capacity are those of a run of the flat sequence. */
  method PerformAll(ba: ByteArray, ops: seq<Op>) returns (outs: seq<Output>, ghost fs: seq<Flat>)
    requires ba.Valid() && Readable(ba.baseSize, ExtentOf(FlatOf(ba)), ops)
    modifies ba, ba.links, ba.memory
    ensures ba.Valid() && FlatRun(ba.baseSize, fs, ops, outs)
    ensures fs[0] == old(FlatOf(ba)) && fs[|ops|] == FlatOf(ba)
  {
    hide Concat, Contents, ByteArray.Chained, ByteArray.Owned, Span, FlatStep;
    hide Readable, GrownCapacity;
    outs := [];
    fs := [FlatOf(ba)];
    assert ops[0..] == ops;
    for k := 0 to |ops|
      invariant ba.Valid() && fresh(ba.links - old(ba.links)) && fresh(ba.memory - old(ba.memory))
      invariant |fs| == k + 1 == |outs| + 1 && fs[0] == old(FlatOf(ba)) && fs[k] == FlatOf(ba)
      invariant forall j :: 0 <= j < k ==> FlatStep(ba.baseSize, fs[j], ops[j], fs[j + 1], outs[j])
      invariant Readable(ba.baseSize, ExtentOf(FlatOf(ba)), ops[k..])
    {
      NextReadable(ba.baseSize, ExtentOf(FlatOf(ba)), ops[k..]);
      ghost var f := FlatOf(ba);
      var out := Perform(ba, ops[k]);
      FlatExtent(ba.baseSize, f, ops[k], FlatOf(ba), out);
      assert ops[k..][1..] == ops[k + 1..];
      outs := outs + [out];
      fs := fs + [FlatOf(ba)];
    }
  }

  lemma ExtentStays(b: nat, e: Extent, op: Op)
    requires b > 0 && e.position <= e.size <= e.capacity
    ensures var e' := ExtentAfter(b, e, op); e'.position <= e'.size <= e'.capacity
  {
    if op.WriteOp? && e.capacity - e.position < |op.bytes| {
      CeilCovers(|op.bytes| - (e.capacity - e.position), b);
    }
  }

  /** Only reads of nothing can be in the way. */
  lemma {:induction false} NonzeroReadable(b: nat, e: Extent, ops: seq<Op>)
    requires b > 0 && e.position <= e.size <= e.capacity && ReadOp(0) !in ops
    ensures Readable(b, e, ops)
    decreases |ops|
  {
    if |ops| > 0 {
      ExtentStays(b, e, ops[0]);
      NonzeroReadable(b, ExtentAfter(b, e, ops[0]), ops[1..]);
    }
  }

  lemma NextReadable(b: nat, e: Extent, ops: seq<Op>)
    requires Readable(b, e, ops) && |ops| > 0
    ensures b > 0 && e.position <= e.size <= e.capacity && Readable(b, ExtentAfter(b, e, ops[0]), ops[1..])
    ensures ops[0] == ReadOp(0) ==> e.position < e.capacity
  {
  }
}
