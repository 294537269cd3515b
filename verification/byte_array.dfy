/**
 The chunked buffer of source/byte_array.cpp: a linked list of blocks of equal
 size with a cursor.  It behaves as a flat byte sequence `Data()` with a position.
 */
module ByteArrayModule {
  import opened Bytes

  class Block {
    const data: array<Byte>
    var next: Block?

    constructor (n: nat)
      ensures data.Length == n && fresh(data) && next == null
    {
      data := new Byte[n];
      next := null;
    }
  }

  /** A value read, the exception `std::out_of_range`, or an access through a null block pointer. */
  datatype Outcome<+T> = Value(value: T) | OutOfRange | NullBlock {
    predicate IsFailure() { !Value? }
    function PropagateFailure<U>(): Outcome<U> requires !Value? { if OutOfRange? then OutOfRange else NullBlock }
    function Extract(): T requires Value? { value }
  }

  // ----- Chunks and the flat sequence they spell -----

  function Flat(chunks: seq<seq<Byte>>): seq<Byte> {
    if chunks == [] then [] else Flat(chunks[..|chunks| - 1]) + chunks[|chunks| - 1]
  }

  /** The address of the first byte of chunk i. */
  function Start(chunks: seq<seq<Byte>>, i: nat): nat
    requires i <= |chunks|
  {
    |Flat(chunks[..i])|
  }

  /** `data` with `buf` written over it from `pos` on. */
  function Overwrite(data: seq<Byte>, pos: nat, buf: seq<Byte>): seq<Byte> {
    (if pos <= |data| then data[..pos] else data) + buf + (if pos + |buf| <= |data| then data[pos + |buf|..] else [])
  }

  predicate Even(chunks: seq<seq<Byte>>, b: nat) {
    forall i :: 0 <= i < |chunks| ==> |chunks[i]| == b
  }

  lemma {:induction false} StartIs(chunks: seq<seq<Byte>>, b: nat, i: nat)
    requires Even(chunks, b) && i <= |chunks|
    ensures Start(chunks, i) == b * i
  {
    if i > 0 {
      StartIs(chunks, b, i - 1);
      assert chunks[..i][..i - 1] == chunks[..i - 1];
      assert b * i == b * (i - 1) + b;
    }
  }

  lemma StartNext(chunks: seq<seq<Byte>>, i: nat)
    requires i < |chunks|
    ensures Start(chunks, i + 1) == Start(chunks, i) + |chunks[i]|
  {
    assert chunks[..i + 1][..i] == chunks[..i];
  }

  lemma {:induction false} FlatSplit(chunks: seq<seq<Byte>>, i: nat)
    requires i <= |chunks|
    ensures Flat(chunks) == Flat(chunks[..i]) + Flat(chunks[i..])
  {
    if i == |chunks| {
      assert chunks[..i] == chunks && chunks[i..] == [];
    } else {
      var n := |chunks| - 1;
      FlatSplit(chunks[..n], i);
      assert chunks[..n][..i] == chunks[..i] && chunks[..n][i..] == chunks[i..][..n - i];
    }
  }

  /** Chunk i lies at its address in the flat sequence. */
  lemma FlatAt(chunks: seq<seq<Byte>>, i: nat)
    requires i < |chunks|
    ensures Flat(chunks) == Flat(chunks[..i]) + chunks[i] + Flat(chunks[i + 1..])
    ensures Start(chunks, i) + |chunks[i]| <= |Flat(chunks)|
  {
    FlatSplit(chunks, i + 1);
    assert chunks[..i + 1][..i] == chunks[..i];
  }

  lemma OverwriteMiddle(pre: seq<Byte>, chunk: seq<Byte>, rest: seq<Byte>, off: nat, piece: seq<Byte>)
    requires off + |piece| <= |chunk|
    ensures |Overwrite(chunk, off, piece)| == |chunk|
    ensures pre + Overwrite(chunk, off, piece) + rest == Overwrite(pre + chunk + rest, |pre| + off, piece)
  {
  }

  /** Overwriting within one chunk overwrites the flat sequence at the matching address. */
  lemma FlatPut(chunks: seq<seq<Byte>>, i: nat, off: nat, piece: seq<Byte>)
    requires i < |chunks| && off + |piece| <= |chunks[i]|
    ensures Start(chunks, i) + off <= |Flat(chunks)|
    ensures
      var after := chunks[i := Overwrite(chunks[i], off, piece)];
      && Flat(after) == Overwrite(Flat(chunks), Start(chunks, i) + off, piece)
      && |Flat(after)| == |Flat(chunks)| && Start(after, i) == Start(chunks, i) && |after[i]| == |chunks[i]|
  {
    hide Overwrite, Flat;
    var after := chunks[i := Overwrite(chunks[i], off, piece)];
    FlatAt(chunks, i);
    FlatAt(after, i);
    assert after[..i] == chunks[..i] && after[i + 1..] == chunks[i + 1..];
    OverwriteMiddle(Flat(chunks[..i]), chunks[i], Flat(chunks[i + 1..]), off, piece);
  }

  lemma OverwriteNone(data: seq<Byte>, pos: nat)
    requires pos <= |data|
    ensures Overwrite(data, pos, []) == data
  {
  }

  /** Two adjacent overwrites are one. */
  lemma OverwriteMore(data: seq<Byte>, pos: nat, buf: seq<Byte>, k: nat, m: nat)
    requires k + m <= |buf| && pos + |buf| <= |data|
    ensures Overwrite(Overwrite(data, pos, buf[..k]), pos + k, buf[k..k + m]) == Overwrite(data, pos, buf[..k + m])
  {
  }

  /** Overwriting a longer buffer, cut to the new size, is overwriting the shorter one. */
  lemma OverwritePrefix(data: seq<Byte>, longer: seq<Byte>, size: nat, pos: nat, buf: seq<Byte>)
    requires data <= longer && pos <= size <= |data| && pos + |buf| <= |longer|
    ensures
      var size' := if pos + |buf| > size then pos + |buf| else size;
      |Overwrite(longer, pos, buf)| == |longer| && Overwrite(longer, pos, buf)[..size'] == Overwrite(data[..size], pos, buf)
  {
  }

  lemma FlatGet(chunks: seq<seq<Byte>>, i: nat, off: nat, n: nat)
    requires i < |chunks| && off + n <= |chunks[i]|
    ensures Start(chunks, i) + off + n <= |Flat(chunks)|
    ensures chunks[i][off..off + n] == Flat(chunks)[Start(chunks, i) + off..Start(chunks, i) + off + n]
  {
    FlatAt(chunks, i);
  }

  lemma SliceMore(data: seq<Byte>, from: nat, to: nat, m: nat)
    requires from <= to && to + m <= |data|
    ensures data[from..to] + data[to..to + m] == data[from..to + m]
  {
  }

  lemma FlatEnds(chunks: seq<seq<Byte>>)
    ensures Start(chunks, |chunks|) == |Flat(chunks)|
  {
    assert chunks[..|chunks|] == chunks;
  }

  /** More blocks at the end: longer by their number times the size, and nothing moves. */
  lemma ChunksGrow(chunks: seq<seq<Byte>>, more: seq<seq<Byte>>, b: nat, at: nat)
    requires Even(more, b) && chunks <= more && at <= |chunks|
    ensures Flat(chunks) <= Flat(more) && |Flat(more)| == |Flat(chunks)| + b * (|more| - |chunks|)
    ensures Start(more, at) == Start(chunks, at) && Start(chunks, |chunks|) == |Flat(chunks)|
  {
    hide Flat;
    var n := |chunks|;
    assert more[..n] == chunks == chunks[..n] && more[..at] == chunks[..at] && more[..|more|] == more;
    StartIs(more, b, n);
    StartIs(more, b, |more|);
    FlatSplit(more, n);
    assert b * |more| == b * n + b * (|more| - n);
  }

  lemma MulLe(b: nat, x: int, y: int)
    requires x <= y
    ensures b * x <= b * y
  {
  }

  lemma SameQuotient(b: nat, q: int, r: int, i: int, off: int)
    requires 0 <= r < b && 0 <= off < b && b * q + r == b * i + off
    ensures q == i && r == off
  {
    if q < i {
      MulLe(b, q + 1, i);
    } else if i < q {
      MulLe(b, i + 1, q);
    }
  }

  lemma Remainder(b: nat, i: nat, off: nat)
    requires b > 0 && off < b
    ensures (b * i + off) % b == off
  {
    var pos := b * i + off;
    var q, r := pos / b, pos % b;
    assert pos == b * q + r;
    SameQuotient(b, q, r, i, off);
  }

  /** `blocks` is a null-terminated list of distinct blocks of size b that hold `chunks`. */
  ghost predicate Listed(blocks: seq<Block>, chunks: seq<seq<Byte>>, b: nat, R: set<object>)
    reads R
  {
    && |chunks| == |blocks| && Even(chunks, b)
    && (forall i :: 0 <= i < |blocks| ==> blocks[i] in R && blocks[i].data in R)
    && (forall i :: 0 <= i < |blocks| ==> blocks[i].next == BlockAt(blocks, i + 1))
    && (forall i, j :: 0 <= i < j < |blocks| ==> blocks[i] != blocks[j] && blocks[i].data != blocks[j].data)
    && (forall i :: 0 <= i < |blocks| ==> blocks[i].data[..] == chunks[i])
  }

  ghost function BlockAt(blocks: seq<Block>, i: nat): Block? {
    if i < |blocks| then blocks[i] else null
  }

  /** Copying a piece into block i keeps the list and overwrites chunk i. */
  method CopyIn(data: array<Byte>, off: nat, piece: seq<Byte>,
                ghost blocks: seq<Block>, ghost chunks: seq<seq<Byte>>, ghost b: nat, ghost R: set<object>, ghost i: nat)
    requires Listed(blocks, chunks, b, R) && i < |blocks| && data == blocks[i].data && off + |piece| <= data.Length
    modifies data
    ensures Listed(blocks, chunks[i := Overwrite(chunks[i], off, piece)], b, R)
  {
    forall k | 0 <= k < |piece| {
      data[off + k] := piece[k];
    }
    assert data[..] == Overwrite(old(data[..]), off, piece);
    ghost var after := chunks[i := data[..]];
    forall k | 0 <= k < |blocks| ensures blocks[k].data[..] == after[k] {
      assert k != i ==> blocks[k].data[..] == old(blocks[k].data[..]) == chunks[k];
    }
  }

  /** Hang a new block of size b behind the last one. */
  method AppendBlock(last: Block, b: nat, ghost blocks: seq<Block>, ghost chunks: seq<seq<Byte>>, ghost R: set<object>)
    returns (node: Block)
    requires Listed(blocks, chunks, b, R) && blocks != [] && last == blocks[|blocks| - 1]
    modifies last`next
    ensures fresh(node) && fresh(node.data) && node.data.Length == b
    ensures Listed(blocks + [node], chunks + [node.data[..]], b, R + {node, node.data})
  {
    node := new Block(b);
    last.next := node;
  }

  /** Walk the list to its end. */
  method LastBlock(root: Block, ghost blocks: seq<Block>, ghost chunks: seq<seq<Byte>>, ghost b: nat, ghost R: set<object>)
    returns (last: Block)
    requires Listed(blocks, chunks, b, R) && blocks != [] && root == blocks[0]
    ensures last == blocks[|blocks| - 1] && last in R
  {
    last := root;
    ghost var k := 0;
    while last.next != null
      invariant k < |blocks| && last == blocks[k]
      decreases |blocks| - k
    {
      last := last.next;
      k := k + 1;
    }
  }

  /** Detach everything behind the first block. */
  method Cut(root: Block, ghost blocks: seq<Block>, ghost chunks: seq<seq<Byte>>, ghost b: nat, ghost R: set<object>)
    requires Listed(blocks, chunks, b, R) && blocks != [] && root == blocks[0]
    modifies root`next
    ensures Listed([root], [chunks[0]], b, R)
  {
    root.next := null;
  }

  lemma CeilingCovers(n: nat, b: nat)
    requires b > 0
    ensures n <= b * ((n + b - 1) / b) < n + b
    ensures n > 0 ==> (n + b - 1) / b > 0
  {
    var m := n + b - 1;
    assert m == b * (m / b) + m % b;
  }

  class ByteArray {
    const baseSize: nat
    var position: nat
    var capacity: nat
    var size: nat
    var root: Block
    var cur: Block?

    ghost var blocks: seq<Block>       // the list from root on
    ghost var chunks: seq<seq<Byte>>   // what they hold
    ghost var at: nat                  // which of them is the cursor block
    ghost var Repr: set<object>

    /** The position lies in block `at`, or past the last block exactly at capacity. */
    ghost predicate Cursor()
      reads this
    {
      && capacity == |Flat(chunks)| && at <= |chunks|
      && (if at < |chunks| then 0 <= position - Start(chunks, at) < |chunks[at]| else position == capacity)
    }

    /** Everything of `Linked` that does not concern the cursor. */
    ghost predicate Chain()
      reads this, Repr
    {
      && this !in Repr && baseSize > 0 && |chunks| == |blocks| && blocks != [] && root == blocks[0]
      && Even(chunks, baseSize) && Listed(blocks, chunks, baseSize, Repr)
    }

    ghost predicate Linked()
      reads this, Repr
    {
      Chain() && Cursor() && cur == BlockAt(blocks, at)
    }

    ghost predicate Valid()
      reads this, Repr
    {
      Linked() && position <= size <= capacity
    }

    /** The flat buffer: everything up to `size`. */
    ghost function Data(): seq<Byte>
      reads this, Repr
      requires Valid()
    {
      Flat(chunks)[..size]
    }

    ghost function Unread(): seq<Byte>
      reads this, Repr
      requires Valid()
    {
      Data()[position..]
    }

    constructor (base: nat)
      requires base > 0
      ensures Valid() && fresh(Repr) && baseSize == base && Data() == [] && position == 0 && capacity == base
    {
      baseSize := base;
      position, capacity, size := 0, base, 0;
      var block := new Block(base);
      root, cur := block, block;
      blocks, chunks, at := [block], [block.data[..]], 0;
      Repr := {block, block.data};
      new;
      assert Flat([block.data[..]]) == Flat([]) + block.data[..];
    }

    /** The cursor block is missing exactly at capacity; otherwise the position modulo the block size is the offset in it. */
    lemma CursorBlock()
      requires Linked()
      ensures cur == null <==> position == capacity
      ensures position <= capacity
      ensures cur != null ==> at < |blocks| && cur == blocks[at] && position == Start(chunks, at) + position % baseSize
    {
      hide Flat, Start;
      if at < |chunks| {
        StartIs(chunks, baseSize, at);
        Remainder(baseSize, at, position - Start(chunks, at));
        FlatAt(chunks, at);
      }
    }

    /** What the list says about the cursor block. */
    lemma CursorNode()
      requires Linked() && cur != null
      ensures at < |blocks| && cur == blocks[at] && cur in Repr && cur.data in Repr
      ensures cur.data.Length == baseSize == |chunks[at]| && cur.next == BlockAt(blocks, at + 1)
      ensures cur.data[..] == chunks[at]
    {
    }

    lemma CapacityIsBlocks()
      requires Valid()
      ensures capacity == baseSize * |blocks| && baseSize > 0
    {
      FlatEnds(chunks);
      StartIs(chunks, baseSize, |chunks|);
    }

    /** Copy a piece into the cursor block. */
    method Fill(npos: nat, piece: seq<Byte>)
      requires Linked() && cur != null && position == Start(chunks, at) + npos && npos + |piece| <= baseSize
      modifies this`chunks, cur.data
      ensures Linked() && Flat(chunks) == Overwrite(old(Flat(chunks)), position, piece)
      ensures Start(chunks, at) == old(Start(chunks, at))
    {
      hide Flat, Start, Overwrite, Listed;
      CursorNode();
      FlatPut(chunks, at, npos, piece);
      ghost var after := chunks[at := Overwrite(chunks[at], npos, piece)];
      CopyIn(cur.data, npos, piece, blocks, chunks, baseSize, Repr, at);
      chunks := after;
    }

    /** Move the cursor on within the block, or to the next block when the end is reached. */
    method Advance(npos: nat, n: nat)
      requires Linked() && cur != null && position == Start(chunks, at) + npos && npos + n <= baseSize
      modifies this`position, this`cur, this`at
      ensures Linked() && position == old(position) + n
      ensures cur != null && npos + n == baseSize ==> position == Start(chunks, at)
    {
      hide Start, Listed;
      CursorNode();
      StartNext(chunks, at);
      FlatEnds(chunks);
      if cur.data.Length == npos + n {
        cur := cur.next;
        at := at + 1;
      }
      position := position + n;
    }

    /** Hang `count` blocks at the end of the list; `first` is the first of them. */
    method AddBlocks(count: nat) returns (first: Block?)
      requires Chain()
      modifies this`capacity, this`blocks, this`chunks, this`Repr, Repr
      ensures Chain() && fresh(Repr - old(Repr)) && capacity == old(capacity) + baseSize * count
      ensures |blocks| == |old(blocks)| + count && old(blocks) <= blocks && old(chunks) <= chunks
      ensures first == if count == 0 then null else blocks[|old(blocks)|]
    {
      hide Listed;
      var tmp := LastBlock(root, blocks, chunks, baseSize, Repr);
      first := null;
      for i := 0 to count
        invariant Chain() && fresh(Repr - old(Repr)) && capacity == old(capacity) + baseSize * i
        invariant |blocks| == |old(blocks)| + i && old(blocks) <= blocks && old(chunks) <= chunks
        invariant first == if i == 0 then null else blocks[|old(blocks)|]
        invariant tmp == blocks[|blocks| - 1] && tmp in Repr
      {
        var node := AppendBlock(tmp, baseSize, blocks, chunks, Repr);
        if first == null {
          first := node;
        }
        tmp := node;
        capacity := capacity + baseSize;
        blocks, chunks, Repr := blocks + [node], chunks + [node.data[..]], Repr + {node, node.data};
      }
    }

    /** Append blocks until `n` more bytes fit; nothing else moves. */
    method AddCapacity(n: nat)
      requires Linked()
      modifies this`capacity, this`cur, this`blocks, this`chunks, this`Repr, Repr
      ensures Linked() && fresh(Repr - old(Repr)) && capacity - position >= n
      ensures capacity == old(capacity) || capacity < position + n + baseSize
      ensures old(Flat(chunks)) <= Flat(chunks)
    {
      hide Flat, Listed;
      CursorBlock();
      var room := capacity - position;
      if n == 0 || room >= n {
        return;
      }
      var count := (n - room + baseSize - 1) / baseSize;
      CeilingCovers(n - room, baseSize);
      var first := AddBlocks(count);
      ChunksGrow(old(chunks), chunks, baseSize, old(at));
      if room == 0 {
        cur := first;
      }
    }

    /** The copying loop of a write that fits. */
    method Put(buf: seq<Byte>)
      requires Linked() && 0 < |buf| <= capacity - position
      modifies this`position, this`cur, this`at, this`chunks, Repr
      ensures Linked() && position == old(position) + |buf|
      ensures Flat(chunks) == Overwrite(old(Flat(chunks)), old(position), buf)
    {
      hide Start, Listed, Overwrite;
      CursorBlock();
      CursorNode();
      var npos := position % baseSize;
      var ncap := cur.data.Length - npos;
      var bpos: nat, n: nat := 0, |buf|;
      ghost var was := Flat(chunks);
      OverwriteNone(was, position);
      assert position + |buf| <= |was|;
      while n > 0
        invariant Linked() && bpos + n == |buf| && position == old(position) + bpos && n <= capacity - position
        invariant n > 0 ==> cur != null && position == Start(chunks, at) + npos && npos + ncap == baseSize && ncap > 0
        invariant Flat(chunks) == Overwrite(was, old(position), buf[..bpos])
      {
        CursorNode();
        var m := if ncap >= n then n else ncap;
        OverwriteMore(was, old(position), buf, bpos, m);
        Fill(npos, buf[bpos..bpos + m]);
        Advance(npos, m);
        bpos, n := bpos + m, n - m;
        if n > 0 {
          CursorBlock();
          CursorNode();
          ncap := cur.data.Length;
          npos := 0;
        }
      }
      assert buf[..bpos] == buf;
    }

    /** Write at the position: the flat buffer is overwritten there, and grows when it must. */
    method Write(buf: seq<Byte>)
      requires Valid()
      modifies this, Repr
      ensures Valid() && fresh(Repr - old(Repr))
      ensures Data() == Overwrite(old(Data()), old(position), buf) && position == old(position) + |buf|
      ensures capacity == old(capacity) || capacity < position + baseSize
    {
      hide Start, Listed;
      if |buf| == 0 {
        return;
      }
      AddCapacity(|buf|);
      ghost var flat := Flat(chunks);
      Put(buf);
      if position > size {
        size := position;
      }
      OverwritePrefix(old(Flat(chunks)), flat, old(size), old(position), buf);
    }

    /**
     Read n bytes at the position, or refuse and change nothing.  A read of nothing at
     capacity looks into the missing cursor block.
     */
    method Read(n: nat) returns (r: Outcome<seq<Byte>>)
      requires Valid()
      modifies this`position, this`cur, this`at
      ensures Valid() && Data() == old(Data())
      ensures r.OutOfRange? <==> n > |old(Unread())|
      ensures r.NullBlock? <==> n == 0 && old(position) == capacity
      ensures r.Value? ==> |r.value| == n && r.value + Unread() == old(Unread()) && position == old(position) + n
      ensures !r.Value? ==> position == old(position)
    {
      hide Flat, Start, Listed;
      CursorBlock();
      if n > size - position {
        return OutOfRange;
      }
      if cur == null {
        return NullBlock;
      }
      var buf := Get(n);
      r := Value(buf);
    }

    /** The copying loop of a read that fits. */
    method Get(n: nat) returns (buf: seq<Byte>)
      requires Linked() && cur != null && position + n <= |Flat(chunks)|
      modifies this`position, this`cur, this`at
      ensures Linked() && position == old(position) + n && buf == Flat(chunks)[old(position)..old(position) + n]
    {
      hide Flat, Start, Listed;
      ghost var flat := Flat(chunks);
      CursorBlock();
      CursorNode();
      var npos := position % baseSize;
      var ncap := cur.data.Length - npos;
      var left: nat := n;
      buf := [];
      while left > 0
        invariant Linked() && left <= n && position == old(position) + n - left && flat == Flat(chunks)
        invariant left > 0 ==> cur != null && position == Start(chunks, at) + npos && npos + ncap == baseSize && ncap > 0
        invariant buf == flat[old(position)..old(position) + n - left]
      {
        CursorNode();
        var m := if ncap >= left then left else ncap;
        FlatGet(chunks, at, npos, m);
        SliceMore(flat, old(position), position, m);
        buf := buf + cur.data[npos..npos + m];
        Advance(npos, m);
        left := left - m;
        if left > 0 {
          CursorBlock();
          CursorNode();
          ncap := cur.data.Length;
          npos := 0;
        }
      }
    }

    /** Move the cursor anywhere within capacity; moving past the end extends the buffer. */
    method SetPosition(v: nat) returns (ok: bool)
      requires Valid()
      modifies this`position, this`size, this`cur, this`at
      ensures Valid() && (ok <==> v <= capacity)
      ensures !ok ==> position == old(position) && Data() == old(Data())
      ensures ok ==> position == v && size == (if v > old(size) then v else old(size)) && Data()[..old(size)] == old(Data())
    {
      hide Start, Listed;
      if v > capacity {
        return false;
      }
      position := v;
      if position > size {
        size := position;
      }
      Seek(v);
      ok := true;
    }

    lemma RootNode()
      requires Chain()
      ensures root.data.Length == baseSize && root in Repr && Start(chunks, 0) == 0
    {
    }

    /** What the list says about block `at` and its successor. */
    lemma NextNode()
      requires Chain() && at < |blocks| && cur == blocks[at]
      ensures cur.data.Length == baseSize == |chunks[at]| && cur.next == BlockAt(blocks, at + 1)
      ensures at + 1 < |blocks| ==> blocks[at + 1].data.Length == baseSize
      ensures Start(chunks, at + 1) == Start(chunks, at) + baseSize
      ensures at + 1 == |blocks| ==> Start(chunks, at + 1) == |Flat(chunks)|
    {
      StartNext(chunks, at);
      FlatEnds(chunks);
    }

    /** Drop everything but the first block. */
    method Clear()
      requires Valid()
      modifies this, Repr
      ensures Valid() && fresh(Repr - old(Repr)) && Data() == [] && position == 0 && capacity == baseSize
    {
      hide Listed;
      RootNode();
      position, size := 0, 0;
      capacity := baseSize;
      cur := root;
      Cut(root, blocks, chunks, baseSize, Repr);
      blocks, chunks, at := [root], [chunks[0]], 0;
      assert Flat(chunks) == Flat([]) + chunks[0];
    }

    /** Walk from the root to the block that holds the position. */
    method Seek(v: nat)
      requires Chain() && v == position <= capacity == |Flat(chunks)|
      modifies this`cur, this`at
      ensures Linked()
    {
      hide Start, Listed;
      var left: nat := v;
      cur, at := root, 0;
      RootNode();
      FlatEnds(chunks);
      while left > cur.data.Length
        invariant at < |blocks| && cur == blocks[at] && cur.data.Length == baseSize && left == v - Start(chunks, at)
        decreases left
      {
        NextNode();
        left := left - cur.data.Length;
        cur := cur.next;
        at := at + 1;
      }
      NextNode();
      if left == cur.data.Length {
        cur := cur.next;
        at := at + 1;
      }
    }
  }
}
