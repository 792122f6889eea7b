/** The older buffer: a vector of 2048-byte blocks with a random-access iterator over it, and
    a few bytes kept free in front of the data. */
module OldBuffers {
  import opened Blocks

  const CHEAP_PREPEND: nat := 8
  const BUFFER_SIZE: nat := 2048

  function Max(a: int, b: int): int { if a >= b then a else b }

  // ---------------------------------------------------------------- the iterator

  /** `buffer` is the place of the iterator's block in the vector, `cur` the distance from the
      block's first byte and `size` that from its first byte to its last: BUFFER_SIZE, or 0
      for the end sentinel, which points into no block. */
  datatype Iterator = Iterator(buffer: int, size: int, cur: int)

  function Begin(buffer: int): Iterator { Iterator(buffer, BUFFER_SIZE, 0) }

  function EndSentinel(buffers: nat): Iterator { Iterator(buffers, 0, 0) }

  /** The iterator points to a byte of a block. */
  predicate InBlock(it: Iterator) { it.size == BUFFER_SIZE && 0 <= it.cur < BUFFER_SIZE }

  /** How many bytes lie before the iterator. */
  function Position(it: Iterator): int { it.buffer * BUFFER_SIZE + it.cur }

  /** The difference of two iterators. */
  function Minus(lhs: Iterator, rhs: Iterator): int {
    BUFFER_SIZE * (lhs.buffer - rhs.buffer - 1) + lhs.cur + (rhs.size - rhs.cur)
  }

  /** operator+=, through the quotient of C, which cuts off toward zero. */
  function Plus(it: Iterator, n: int): Iterator {
    var offset := n + it.cur;
    if 0 <= offset < BUFFER_SIZE then it.(cur := it.cur + n)
    else
      var bufferOffset := if offset > 0 then offset / BUFFER_SIZE else -((-offset - 1) / BUFFER_SIZE) - 1;
      Iterator(it.buffer + bufferOffset, BUFFER_SIZE, offset - bufferOffset * BUFFER_SIZE)
  }

  /** operator++. */
  function Increment(it: Iterator): Iterator {
    if it.cur + 1 == it.size then Begin(it.buffer + 1) else it.(cur := it.cur + 1)
  }

  /** operator<. */
  predicate Less(lhs: Iterator, rhs: Iterator) {
    if lhs.buffer == rhs.buffer then lhs.cur < rhs.cur else lhs.buffer < rhs.buffer
  }

  /** Moving by `n` moves the position by `n`, forward or back, and lands inside a block. */
  lemma PlusLinear(it: Iterator, n: int)
    requires InBlock(it)
    ensures InBlock(Plus(it, n)) && Position(Plus(it, n)) == Position(it) + n
  {
  }

  /** An iterator into a block is determined by its position. */
  lemma PositionDetermines(a: Iterator, b: Iterator)
    requires InBlock(a) && InBlock(b) && Position(a) == Position(b)
    ensures a == b
  {
  }

  /** Two moves are one move by the sum; a move back undoes a move. */
  lemma PlusAdds(it: Iterator, m: int, n: int)
    requires InBlock(it)
    ensures Plus(Plus(it, m), n) == Plus(it, m + n)
    ensures Plus(Plus(it, n), -n) == it
  {
    PlusLinear(it, m);
    PlusLinear(Plus(it, m), n);
    PlusLinear(it, m + n);
    PositionDetermines(Plus(Plus(it, m), n), Plus(it, m + n));
    PlusLinear(it, n);
    PlusLinear(Plus(it, n), -n);
    PositionDetermines(Plus(Plus(it, n), -n), it);
  }

  /** The difference is the difference of the positions exactly when the subtrahend points
      into a block; the minuend may be the end sentinel. */
  lemma MinusExact(lhs: Iterator, rhs: Iterator)
    ensures Minus(lhs, rhs) == Position(lhs) - Position(rhs) <==> rhs.size == BUFFER_SIZE
  {
  }

  lemma PlusMinus(it: Iterator, n: int)
    requires InBlock(it)
    ensures Minus(Plus(it, n), it) == n
  {
    PlusLinear(it, n);
    MinusExact(Plus(it, n), it);
  }

  lemma LessIsPositionOrder(a: Iterator, b: Iterator)
    requires InBlock(a) && InBlock(b)
    ensures Less(a, b) <==> Position(a) < Position(b)
  {
  }

  lemma PlusFromBegin(buffer: int, offset: int)
    requires 0 <= offset < BUFFER_SIZE
    ensures Plus(Begin(buffer), offset) == Iterator(buffer, BUFFER_SIZE, offset)
  {
  }

  lemma IncrementIsPlusOne(it: Iterator)
    requires InBlock(it)
    ensures Increment(it) == Plus(it, 1)
  {
    PlusLinear(it, 1);
  }

  // ---------------------------------------------------------------- the buffer

  class Buffer {
    var bufferList: seq<Block>
    var readIndex: Iterator
    var writeIndex: Iterator
    // The abstract value: the readable bytes.
    ghost var content: seq<Byte>

    /** The read index is not behind the write index, and one byte of the storage always
        stays unused behind the write index. */
    ghost predicate Shape()
      reads this
    {
      && Distinct(bufferList) && Sized(bufferList, BUFFER_SIZE)
      && InBlock(readIndex) && InBlock(writeIndex)
      && 0 <= Position(readIndex) <= Position(writeIndex) < |bufferList| * BUFFER_SIZE
    }

    ghost predicate Valid()
      reads this, bufferList
    {
      && Shape()
      && |content| == Position(writeIndex) - Position(readIndex)
      && Between(Vals(bufferList), writeIndex.buffer, writeIndex.cur, Position(readIndex), content)
    }

    /** A buffer of `initial` blocks. The prepend argument of the source is not used by it. */
    constructor (initial: nat)
      requires initial > 0
      ensures Valid() && content == [] && GetPrependableBytes() == CHEAP_PREPEND
      ensures |bufferList| == initial && forall i :: 0 <= i < initial ==> fresh(bufferList[i])
    {
      bufferList := [];
      readIndex, writeIndex := Plus(Begin(0), CHEAP_PREPEND), Plus(Begin(0), CHEAP_PREPEND);
      content := [];
      new;
      AllocateBuffers(initial);
    }

    function ReadableBytes(): (n: int)
      requires Valid()
      reads this, bufferList
      ensures n == |content|
    {
      Minus(writeIndex, readIndex)
    }

    /** One byte less than what is left, so that an iterator behind the data stays valid. */
    function WritableBytes(): (n: int)
      requires Shape()
      reads this
      ensures n >= 0 && Position(writeIndex) + n + 1 == |bufferList| * BUFFER_SIZE
    {
      Max(Minus(EndSentinel(|bufferList|), writeIndex) - 1, 0)
    }

    function GetPrependableBytes(): (n: int)
      requires Shape()
      reads this
      ensures n == Position(readIndex)
    {
      Minus(readIndex, Begin(0))
    }

    method ResetIndex()
      requires Shape()
      modifies this`readIndex, this`writeIndex, this`content
      ensures Valid() && content == [] && GetPrependableBytes() == CHEAP_PREPEND
    {
      readIndex, writeIndex := Plus(Begin(0), CHEAP_PREPEND), Plus(Begin(0), CHEAP_PREPEND);
      content := [];
      BetweenStart(Vals(bufferList), CHEAP_PREPEND);
    }

    method Retrive(len: nat)
      requires Valid() && len <= ReadableBytes()
      modifies this`readIndex, this`writeIndex, this`content
      ensures Valid() && content == old(content)[len..]
      ensures len == |old(content)| ==> GetPrependableBytes() == CHEAP_PREPEND
      ensures len < |old(content)| ==> writeIndex == old(writeIndex) && GetPrependableBytes() == old(GetPrependableBytes()) + len
    {
      if len < ReadableBytes() {
        PlusLinear(readIndex, len);
        BetweenDrop(Vals(bufferList), writeIndex.buffer, writeIndex.cur, Position(readIndex), content, len);
        hide Plus, Between;
        readIndex := Plus(readIndex, len);
        content := content[len..];
      } else {
        ResetIndex();
      }
    }

    // ------------------------------------------------------------ making room

    /** Every block was in the list before or is new. */
    twostate predicate Owned()
      reads this
    {
      forall i :: 0 <= i < |bufferList| ==> bufferList[i] in old(bufferList) || fresh(bufferList[i])
    }

    /** Makes room for `len` more bytes: the used blocks are swapped to the front of the list if
        that leaves it less than half full, and otherwise the list is doubled. */
    method ExtendSpace(len: nat) returns (ghost swapped: bool)
      requires Valid() && len > 0
      modifies this`bufferList, this`readIndex, this`writeIndex
      ensures Valid() && Owned() && WritableBytes() > old(WritableBytes())
      ensures swapped == (|old(bufferList)| > 2 * (|old(bufferList)| - old(readIndex).buffer + ((len - 1) / BUFFER_SIZE + 1)))
      ensures swapped ==>
        && |bufferList| == |old(bufferList)| && multiset(bufferList) == multiset(old(bufferList))
        && WritableBytes() >= old(WritableBytes()) + len && GetPrependableBytes() >= CHEAP_PREPEND
        // the data starts in the first block, or in the second if it stood too far in front in its own
        && readIndex == Iterator(if old(readIndex).cur >= CHEAP_PREPEND then 0 else 1, BUFFER_SIZE, old(readIndex).cur)
      ensures !swapped ==>
        && old(bufferList) <= bufferList && |bufferList| == 2 * |old(bufferList)|
        && readIndex == old(readIndex) && writeIndex == old(writeIndex)
    {
      hide Between, Distinct, Sized;
      var left := readIndex.buffer;
      var buffersToAdd := (len - 1) / BUFFER_SIZE + 1;
      var buffersToUse := |bufferList| - left + buffersToAdd;
      swapped := |bufferList| > 2 * buffersToUse;
      if |bufferList| > 2 * buffersToUse {
        Enough(len, |bufferList|, left);
        SwapToFront(if readIndex.cur >= CHEAP_PREPEND then 0 else 1);
      } else {
        Double();
      }
    }

    /** The blocks from the read index to the write index change places with those at `idle`
        and after it; the two stretches do not meet. */
    method SwapToFront(idle: nat)
      requires Valid() && idle <= 1 && |bufferList| + 2 < 2 * readIndex.buffer
      modifies this`bufferList, this`readIndex, this`writeIndex
      ensures Valid() && multiset(bufferList) == multiset(old(bufferList)) && Owned()
      ensures |bufferList| == |old(bufferList)|
      ensures readIndex == Iterator(idle, BUFFER_SIZE, old(readIndex.cur))
      ensures Position(writeIndex) == old(Position(writeIndex)) - (old(readIndex.buffer) - idle) * BUFFER_SIZE
    {
      hide Between, Distinct, Sized, Plus, Begin;
      var readOffset, offset, writeOffset := readIndex.cur, writeIndex.buffer - readIndex.buffer, writeIndex.cur;
      MoveBlocks(idle);
      PlusFromBegin(idle, readOffset);
      PlusFromBegin(idle + offset, writeOffset);
      readIndex := Plus(Begin(idle), readOffset);
      writeIndex := Plus(Begin(idle + offset), writeOffset);
    }

    /** The blocks move; the indices do not yet. */
    method MoveBlocks(idle: nat)
      requires Valid() && idle <= 1 && |bufferList| + 2 < 2 * readIndex.buffer
      modifies this`bufferList
      ensures Distinct(bufferList) && Sized(bufferList, BUFFER_SIZE)
      ensures multiset(bufferList) == multiset(old(bufferList)) && |bufferList| == |old(bufferList)| && Owned()
      ensures Between(Vals(bufferList), idle + (writeIndex.buffer - readIndex.buffer), writeIndex.cur, idle * BUFFER_SIZE + readIndex.cur, content)
    {
      hide Between, Distinct, Sized, Owned;
      var left, right := readIndex.buffer, writeIndex.buffer;
      ghost var was := bufferList;
      SwapBlocks(left, right, idle);
      BlocksMoved(was, bufferList, left, idle, right - left, writeIndex.cur, readIndex.cur, content);
    }

    /** The swapping loop. */
    method SwapBlocks(left: nat, right: nat, idle: nat)
      requires left <= right < |bufferList| && idle + (right - left) < left
      requires Distinct(bufferList) && Sized(bufferList, BUFFER_SIZE)
      modifies this`bufferList
      ensures Distinct(bufferList) && Sized(bufferList, BUFFER_SIZE) && |bufferList| == |old(bufferList)|
      ensures multiset(bufferList) == multiset(old(bufferList)) && Owned()
      ensures bufferList[idle..idle + (right - left) + 1] == old(bufferList)[left..right + 1]
    {
      var i := 0;
      while left + i <= right
        invariant 0 <= i <= right - left + 1 && |bufferList| == |old(bufferList)|
        invariant Distinct(bufferList) && Sized(bufferList, BUFFER_SIZE)
        invariant multiset(bufferList) == multiset(old(bufferList))
        invariant bufferList[idle..idle + i] == old(bufferList)[left..left + i]
        invariant forall j :: left + i <= j < |bufferList| ==> bufferList[j] == old(bufferList)[j]
      {
        ghost var was := bufferList;
        SwapOne(left + i, idle + i);
        assert bufferList[idle..idle + i + 1] == was[idle..idle + i] + [was[left + i]];
        assert old(bufferList)[left..left + i + 1] == old(bufferList)[left..left + i] + [old(bufferList)[left + i]];
        i := i + 1;
      }
      SameMembers(bufferList, old(bufferList));
    }

    /** std::swap of two entries. */
    method SwapOne(a: nat, b: nat)
      requires b < a < |bufferList| && Distinct(bufferList) && Sized(bufferList, BUFFER_SIZE)
      modifies this`bufferList
      ensures bufferList == old(bufferList)[a := old(bufferList)[b]][b := old(bufferList)[a]]
      ensures Distinct(bufferList) && Sized(bufferList, BUFFER_SIZE)
      ensures multiset(bufferList) == multiset(old(bufferList))
    {
      bufferList := bufferList[a := bufferList[b]][b := bufferList[a]];
    }

    method Double()
      requires Valid()
      modifies this`bufferList
      ensures Valid() && Owned() && old(bufferList) <= bufferList && |bufferList| == 2 * |old(bufferList)|
    {
      hide Between;
      ghost var vals := Vals(bufferList);
      AllocateBuffers(|bufferList|);
      assert Vals(bufferList)[..|vals|] == vals;
      BetweenGrown(vals, Vals(bufferList), writeIndex.buffer, writeIndex.cur, Position(readIndex), content);
    }

    method AllocateBuffers(n: nat)
      requires Distinct(bufferList) && Sized(bufferList, BUFFER_SIZE)
      modifies this`bufferList
      ensures Distinct(bufferList) && Sized(bufferList, BUFFER_SIZE)
      ensures old(bufferList) <= bufferList && |bufferList| == |old(bufferList)| + n
      ensures forall i :: |old(bufferList)| <= i < |bufferList| ==> fresh(bufferList[i])
    {
      for i := 0 to n
        invariant Distinct(bufferList) && Sized(bufferList, BUFFER_SIZE)
        invariant old(bufferList) <= bufferList && |bufferList| == |old(bufferList)| + i
        invariant forall k :: |old(bufferList)| <= k < |bufferList| ==> fresh(bufferList[k])
      {
        var block := new Byte[BUFFER_SIZE];
        bufferList := bufferList + [block];
      }
    }

    /** Terminates with at least `len` writable bytes; nothing readable changes. */
    method EnsureWritableBytes(len: nat)
      requires Valid()
      modifies this`bufferList, this`readIndex, this`writeIndex
      ensures Valid() && Owned() && WritableBytes() >= len
      ensures old(WritableBytes()) >= len ==>
        bufferList == old(bufferList) && readIndex == old(readIndex) && writeIndex == old(writeIndex)
      // the list is not doubled once more than needed: half of it would not do
      ensures |bufferList| > |old(bufferList)| ==> |bufferList| * BUFFER_SIZE < 2 * (old(Position(writeIndex)) + len + 1)
      ensures |bufferList| >= |old(bufferList)|
    {
      hide Between, Distinct, Sized, InBlock;
      while len > WritableBytes()
        invariant Valid() && Owned()
        invariant old(WritableBytes()) >= len ==>
          bufferList == old(bufferList) && readIndex == old(readIndex) && writeIndex == old(writeIndex)
        invariant |bufferList| > |old(bufferList)| ==> |bufferList| * BUFFER_SIZE < 2 * (old(Position(writeIndex)) + len + 1)
        invariant |bufferList| >= |old(bufferList)|
        invariant len > WritableBytes() ==> writeIndex == old(writeIndex)
        decreases len - WritableBytes()
      {
        ghost var _ := ExtendSpace(len - WritableBytes());
      }
    }

    // ------------------------------------------------------------ adding bytes

    method Append(data: seq<Byte>)
      requires Valid()
      modifies this, bufferList
      ensures Valid() && content == old(content) + data && Owned()
      ensures old(WritableBytes()) >= |data| ==> bufferList == old(bufferList) && readIndex == old(readIndex)
      ensures |bufferList| > |old(bufferList)| ==> |bufferList| * BUFFER_SIZE < 2 * (old(Position(writeIndex)) + |data| + 1)
    {
      hide Between, Distinct, Sized;
      EnsureWritableBytes(|data|);
      CopyBehind(data);
    }

    /** std::copy to the write index, byte by byte, and the index moves behind the copy. */
    method CopyBehind(data: seq<Byte>)
      requires Valid() && |data| <= WritableBytes()
      modifies this`writeIndex, this`content, bufferList
      ensures Valid() && content == old(content) + data
    {
      hide Between, Plus, Increment;
      var it := writeIndex;
      assert content == content + data[..0];
      for i := 0 to |data|
        modifies bufferList
        invariant InBlock(it) && Position(it) == Position(writeIndex) + i
        invariant Between(Vals(bufferList), it.buffer, it.cur, Position(readIndex), content + data[..i])
      {
        PutByte(it, data[i], content + data[..i]);
        assert content + data[..i] + [data[i]] == content + data[..i + 1];
        IncrementIsPlusOne(it);
        PlusLinear(it, 1);
        it := Increment(it);
      }
      PlusLinear(writeIndex, |data|);
      PositionDetermines(it, Plus(writeIndex, |data|));
      writeIndex := Plus(writeIndex, |data|);
      assert data[..|data|] == data;
      content := content + data;
    }

    /** *it = x, and what that means for the iterator behind it. */
    method PutByte(it: Iterator, x: Byte, ghost s: seq<Byte>)
      requires Distinct(bufferList) && Sized(bufferList, BUFFER_SIZE) && 0 <= Position(readIndex)
      requires InBlock(it) && 0 <= Position(it) && Position(it) + 1 < |bufferList| * BUFFER_SIZE
      requires Between(Vals(bufferList), it.buffer, it.cur, Position(readIndex), s)
      modifies bufferList
      ensures Between(Vals(bufferList), Increment(it).buffer, Increment(it).cur, Position(readIndex), s + [x])
    {
      hide Between;
      ghost var vals := Vals(bufferList);
      SetByte(it, x);
      assert Vals(bufferList)[it.buffer] == vals[it.buffer][..it.cur] + [x] + vals[it.buffer][it.cur + 1..];
      BetweenPut(vals, Vals(bufferList), it.buffer, it.cur, Position(readIndex), s, [x]);
      if it.cur + 1 == BUFFER_SIZE {
        BetweenNext(Vals(bufferList), it.buffer, Position(readIndex), s + [x]);
      }
    }

    /** *it = x inside the stretch between the indices. */
    method Overwrite(it: Iterator, x: Byte, ghost s: seq<Byte>)
      requires Shape() && InBlock(it) && Position(readIndex) <= Position(it) < Position(writeIndex)
      requires Between(Vals(bufferList), writeIndex.buffer, writeIndex.cur, Position(readIndex), s)
      modifies bufferList
      ensures Position(it) - Position(readIndex) < |s|
      ensures Between(Vals(bufferList), writeIndex.buffer, writeIndex.cur, Position(readIndex), s[Position(it) - Position(readIndex) := x])
    {
      hide Between, Distinct;
      SizedUniform(bufferList, BUFFER_SIZE);
      BetweenSet(Vals(bufferList), it.buffer, it.cur, x, writeIndex.buffer, writeIndex.cur, Position(readIndex), s,
          BUFFER_SIZE);
      SetByte(it, x);
    }

    method SetByte(it: Iterator, x: Byte)
      requires Distinct(bufferList) && Sized(bufferList, BUFFER_SIZE)
      requires InBlock(it) && 0 <= it.buffer < |bufferList|
      modifies bufferList[it.buffer]
      ensures Vals(bufferList) == old(Vals(bufferList))[it.buffer := old(bufferList[it.buffer][..])[it.cur := x]]
    {
      bufferList[it.buffer][it.cur] := x;
    }

    /** Puts bytes in front of the data, where there is room for them. */
    method Prepend(data: seq<Byte>)
      requires Valid() && |data| <= GetPrependableBytes()
      modifies this`readIndex, this`content, bufferList
      ensures Valid() && content == data + old(content)
    {
      hide Between, Plus, Increment;
      ghost var front := BetweenEarlierStart(Vals(bufferList), writeIndex.buffer, writeIndex.cur, Position(readIndex), content, |data|);
      PlusLinear(readIndex, -|data|);
      readIndex := Plus(readIndex, -|data|);
      var it := readIndex;
      ghost var s := front + content;
      for i := 0 to |data|
        modifies bufferList
        invariant InBlock(it) && Position(it) == Position(readIndex) + i
        invariant |s| == |data| + |content| && s[..i] == data[..i] && s[|data|..] == content
        invariant Between(Vals(bufferList), writeIndex.buffer, writeIndex.cur, Position(readIndex), s)
      {
        Overwrite(it, data[i], s);
        s := s[i := data[i]];
        IncrementIsPlusOne(it);
        PlusLinear(it, 1);
        it := Increment(it);
      }
      assert s == data + content;
      content := s;
    }
  }

  /** When the list is more than twice as long as what would be used, moving the data to the
      second block at the latest frees enough blocks. */
  lemma Enough(len: nat, size: nat, left: int)
    requires len > 0 && size > 2 * (size - left + ((len - 1) / BUFFER_SIZE + 1))
    ensures (left - 1) * BUFFER_SIZE >= len && size + 2 < 2 * left
  {
    assert len <= ((len - 1) / BUFFER_SIZE + 1) * BUFFER_SIZE;
  }

  lemma BlocksMoved(bs: seq<Block>, bs': seq<Block>, j: nat, j': nat, n: nat, off: nat, start: nat, s: seq<Byte>)
    requires Sized(bs, BUFFER_SIZE) && Sized(bs', BUFFER_SIZE) && off <= BUFFER_SIZE
    requires j + n < |bs| && j' + n < |bs'| && bs'[j'..j' + n + 1] == bs[j..j + n + 1]
    requires Between(Vals(bs), j + n, off, j * BUFFER_SIZE + start, s)
    ensures Between(Vals(bs'), j' + n, off, j' * BUFFER_SIZE + start, s)
  {
    hide Between;
    ValsSlice(bs', bs, j', j, n + 1);
    BetweenMoved(Vals(bs), Vals(bs'), j, j', n, off, start, s, BUFFER_SIZE);
  }

  lemma SameMembers(bs: seq<Block>, bs': seq<Block>)
    requires multiset(bs) == multiset(bs')
    ensures forall i :: 0 <= i < |bs| ==> bs[i] in bs'
  {
    forall i | 0 <= i < |bs| ensures bs[i] in bs' {
      assert bs[i] in multiset(bs);
    }
  }

  lemma ValsSlice(bs: seq<Block>, bs': seq<Block>, i: nat, j: nat, n: nat)
    requires i + n <= |bs| && j + n <= |bs'| && bs[i..i + n] == bs'[j..j + n]
    ensures Vals(bs)[i..i + n] == Vals(bs')[j..j + n]
  {
    var vs, vs' := Vals(bs)[i..i + n], Vals(bs')[j..j + n];
    forall k | 0 <= k < n ensures vs[k] == vs'[k] {
      assert bs[i..i + n][k] == bs'[j..j + n][k];
    }
  }
}
