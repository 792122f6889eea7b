/** The connection buffer: a list of 4096-byte blocks with a read and a write cursor.
    Every operation is proved to be an operation on a plain queue of bytes. */
module ChainBuffers {
  import opened Blocks

  const BLOCK_SIZE: nat := 4096
  const EXTRA_SPACE: nat := 65536
  const MAX_VEC_SIZE: nat := 16

  /** The first `k` elements moved behind the others. */
  function Rotated<T>(s: seq<T>, k: nat): seq<T>
    requires k <= |s|
  {
    s[k..] + s[..k]
  }

  lemma RotatedOnce<T>(s: seq<T>, k: nat)
    requires k < |s|
    ensures Rotated(Rotated(s, k), 1) == Rotated(s, k + 1)
  {
  }

  lemma ConcatAssoc<T>(a: seq<T>, b: seq<T>, c: seq<T>)
    ensures (a + b) + c == a + (b + c)
  {
  }

  lemma TakeMore<T>(s: seq<T>, data: seq<T>, i: nat, n: nat)
    requires i + n <= |data|
    ensures s + data[..i] + data[i..i + n] == s + data[..i + n]
  {
  }

  lemma DropDrop<T>(s: seq<T>, a: nat, b: nat)
    requires a + b <= |s|
    ensures s[a..][b..] == s[a + b..]
  {
  }

  function Min(a: int, b: int): int {
    if a <= b then a else b
  }

  /** What a system call on a descriptor hands back: an errno or a result. */
  datatype Outcome<T> = Failed(errno: int) | Done(value: T)

  /** An operation, with the caller's arguments and the kernel's answer. */
  datatype Op =
    | Append(data: seq<Byte>)
    | AppendBuffer(other: ChainBuffer, bytes: seq<Byte>)   // `bytes` is what the other buffer holds
    | Retrive(n: nat)
    | RetriveAll
    | Peek(n: nat)
    | Shrink(reserve: nat)
    | Receive(incoming: Outcome<seq<Byte>>)
    | Send(accepts: Outcome<nat>)

  /** What a plain queue of bytes may do on an operation: from `q` to `q'`, handing out `out`.
      Retrive and Peek beyond the end are calls the buffer's assertion forbids; no call is made. */
  ghost predicate QueueStep(q: seq<Byte>, op: Op, out: seq<Byte>, q': seq<Byte>) {
    match op
    case Append(data) => q' == q + data && out == []
    case AppendBuffer(_, bytes) => q' == q + bytes && out == []
    case Retrive(n) => out == [] && q' == if n <= |q| then q[n..] else q
    case RetriveAll => q' == [] && out == []
    case Peek(n) => q' == q && out == if n <= |q| then q[..n] else []
    case Shrink(_) => q' == q && out == []
    case Receive(Failed(_)) => q' == q && out == []
    // readv may take less than there is, but it always has room for EXTRA_SPACE bytes
    case Receive(Done(bytes)) =>
      out == [] && exists n :: Min(|bytes|, EXTRA_SPACE) <= n <= |bytes| && q' == q + bytes[..n]
    case Send(Failed(_)) => q' == q && out == []
    // writev is offered the whole queue, or at least 15 blocks and a byte of it
    case Send(Done(limit)) =>
      && |out| <= limit && out + q' == q
      && (|out| == limit || q' == [] || |out| > (MAX_VEC_SIZE - 1) * BLOCK_SIZE)
  }

  function Larger(a: nat, b: nat): nat {
    if a > b then a else b
  }

  /** How many blocks hold `n` bytes and one more. */
  function BlocksFor(n: nat): nat {
    n / BLOCK_SIZE + 1
  }

  lemma CursorBlock(k: nat, off: nat)
    requires off < BLOCK_SIZE
    ensures BlocksFor(k * BLOCK_SIZE + off) == k + 1
  {
  }

  lemma BlocksBound(n: nat, pos: nat, k: nat)
    requires n <= k * BLOCK_SIZE && pos < BLOCK_SIZE
    ensures BlocksFor(pos + n) <= k + 1
  {
  }

  lemma WithinFront(trace: seq<seq<Byte>>, s: seq<Byte>, k: nat)
    requires Within(trace + [s], k)
    ensures Within(trace, k) && |s| <= k * BLOCK_SIZE
  {
    var t := trace + [s];
    assert t[|trace|] == s && forall i :: 0 <= i < |trace| ==> t[i] == trace[i];
  }

  /** At no moment of a run does the queue hold more than `k` blocks' worth of bytes. */
  ghost predicate Within(trace: seq<seq<Byte>>, k: nat) {
    forall i :: 0 <= i < |trace| ==> |trace[i]| <= k * BLOCK_SIZE
  }

  class ChainBuffer {
    // The abstract value: the readable bytes, first byte first.
    ghost var content: seq<Byte>

    // The list of blocks. A list iterator is the position of its node in this list.
    var buffers: seq<Block>
    var readableBytes: nat
    var writeBuffer: nat
    var readBuffer: nat
    var writePos: nat
    var readPos: nat

    // ------------------------------------------------------------ representation

    /** The read cursor stands inside the first block and not behind the write cursor. */
    ghost predicate Shape()
      reads this
    {
      && Distinct(buffers) && Sized(buffers, BLOCK_SIZE)
      && readBuffer == 0
      && writeBuffer < |buffers|
      && writePos <= BLOCK_SIZE && readPos < BLOCK_SIZE
      && (writeBuffer == 0 ==> readPos <= writePos)
    }

    /** The readable bytes lie between the read cursor and the write cursor. */
    ghost predicate Holds()
      reads this, buffers
    {
      && Shape()
      && |content| == writeBuffer * BLOCK_SIZE + writePos - readPos
      && Between(Vals(buffers), writeBuffer, writePos, readPos, content)
    }

    /** The cached count is right. */
    ghost predicate Loose()
      reads this, buffers
    {
      Holds() && readableBytes == |content|
    }

    /** The representation invariant: besides, the write cursor stands strictly inside its
        block, so that there is always a next byte to write. */
    ghost predicate Valid()
      reads this, buffers
    {
      Loose() && writePos < BLOCK_SIZE
    }

    /** Blocks were only added, at the tail, and the added ones are new. */
    twostate predicate Grown()
      reads this
    {
      && old(buffers) <= buffers
      && forall i :: |old(buffers)| <= i < |buffers| ==> fresh(buffers[i])
    }

    /** The list has grown at most as far as the write cursor has come. */
    twostate predicate Stretched()
      reads this
    {
      && old(buffers) <= buffers && readPos == old(readPos) && old(writeBuffer) <= writeBuffer
      && |buffers| == Larger(|old(buffers)|, writeBuffer + 1)
    }

    /** Every block was in the list before or is new. */
    twostate predicate Owned()
      reads this
    {
      forall i :: 0 <= i < |buffers| ==> buffers[i] in old(buffers) || fresh(buffers[i])
    }

    constructor ()
      ensures Valid() && content == []
      ensures |buffers| == 1 && fresh(buffers[0])
    {
      var block := new Byte[BLOCK_SIZE];
      buffers := [block];
      readableBytes, writeBuffer, readBuffer, writePos, readPos := 0, 0, 0, 0, 0;
      content := [];
    }

    // ------------------------------------------------------------ sizes

    function SlowReadableBytes(): (n: int)
      requires Valid()
      reads this, buffers
      ensures n == readableBytes
    {
      (writeBuffer - readBuffer) * BLOCK_SIZE + writePos - readPos
    }

    function WritableBytes(): (n: int)
      requires Shape()
      reads this
      ensures n >= 0 && (writePos < BLOCK_SIZE ==> n > 0)
      ensures |buffers| * BLOCK_SIZE == readPos + (writeBuffer * BLOCK_SIZE + writePos - readPos) + n
    {
      (|buffers| - writeBuffer) * BLOCK_SIZE - writePos
    }

    // ------------------------------------------------------------ taking bytes out

    method Retrive(len: nat) returns (ghost k: nat)
      requires Valid() && len <= readableBytes
      modifies this
      ensures Valid() && content == old(content)[len..]
      // the `k` blocks consumed move to the tail, nothing else happens to the list
      ensures k * BLOCK_SIZE + readPos == old(readPos) + len
      ensures k <= |old(buffers)| && buffers == Rotated(old(buffers), k)
    {
      hide Between;
      readableBytes := readableBytes - len;
      var left: nat := len;
      k := 0;
      while left > 0
        invariant Holds() && writePos < BLOCK_SIZE && left <= len <= |old(content)|
        invariant readableBytes + left == |content| && content == old(content)[len - left..]
        invariant k * BLOCK_SIZE + readPos == old(readPos) + len - left
        invariant k <= |old(buffers)| && buffers == Rotated(old(buffers), k)
        decreases left
      {
        var m := BLOCK_SIZE - readPos;
        var n := if m > left then left else m;
        DropDrop(old(content), len - left, n);
        if m <= left {
          RotatedOnce(old(buffers), k);
          k := k + 1;
        }
        Consume(n);
        left := left - n;
      }
    }

    /** Takes bytes out of the read cursor's block; the cursor leaves a block it has used up. */
    method Consume(n: nat)
      requires Holds() && writePos < BLOCK_SIZE && readPos + n <= BLOCK_SIZE && n <= |content|
      modifies this`buffers, this`readPos, this`writeBuffer, this`content
      ensures Holds() && content == old(content)[n..]
      ensures readPos == if old(readPos) + n < BLOCK_SIZE then old(readPos) + n else 0
      ensures buffers == if old(readPos) + n < BLOCK_SIZE then old(buffers) else Rotated(old(buffers), 1)
      ensures |buffers| == |old(buffers)|
    {
      hide Between;
      if BLOCK_SIZE - readPos > n {
        Skip(n);
      } else {
        Rotate();
      }
    }

    /** The read cursor moves inside its block. */
    method Skip(n: nat)
      requires Holds() && readPos + n < BLOCK_SIZE && n <= |content|
      modifies this`readPos, this`content
      ensures Holds() && readPos == old(readPos) + n && content == old(content)[n..]
    {
      DropDrop(Written(Vals(buffers), writeBuffer, writePos), readPos, n);
      readPos, content := readPos + n, content[n..];
    }

    /** The read cursor steps to the next block and the block it leaves is spliced to the tail. */
    method Rotate()
      requires Holds() && writeBuffer > 0
      modifies this`buffers, this`readPos, this`writeBuffer, this`content
      ensures Holds() && readPos == 0 && writeBuffer == old(writeBuffer) - 1
      ensures buffers == Rotated(old(buffers), 1)
      ensures content == old(content)[BLOCK_SIZE - old(readPos)..]
    {
      ghost var vals := Vals(buffers);
      assert |vals[0]| == BLOCK_SIZE;
      hide Between, Distinct, Sized;
      ListRotate(buffers);
      BetweenTail(vals, writeBuffer, writePos, readPos, content);
      // splicing shifts the position of every other node down by one
      buffers := buffers[1..] + [buffers[0]];
      writeBuffer := writeBuffer - 1;
      content := content[BLOCK_SIZE - readPos..];
      readPos := 0;
      assert Vals(buffers) == vals[1..] + [vals[0]];
      BetweenGrown(vals[1..], Vals(buffers), writeBuffer, writePos, 0, content);
    }

    method RetriveAll()
      requires Valid()
      modifies this
      ensures Valid() && content == []
      ensures buffers == old(buffers) && readPos == 0 && WritableBytes() == |buffers| * BLOCK_SIZE
    {
      hide Between, Distinct, Sized;
      BetweenStart(Vals(buffers), 0);
      readBuffer, writeBuffer := 0, 0;
      readPos, writePos := 0, 0;
      readableBytes := 0;
      content := [];
    }

    method PeekAsString(len: nat) returns (s: seq<Byte>)
      requires Valid() && len <= readableBytes
      ensures s == content[..len]
    {
      var peekBuffer, peekPos, left: nat := readBuffer, readPos, len;
      s := [];
      ghost var vals, seen: nat := Vals(buffers), readPos;
      while left > 0
        invariant peekBuffer <= writeBuffer && seen < BLOCK_SIZE && left <= len
        invariant |s| == len - left
        invariant peekBuffer * BLOCK_SIZE + seen == readPos + len - left
        invariant Between(vals, peekBuffer, seen, readPos, s)
        invariant left > 0 ==> peekPos == seen
        decreases left
      {
        var from, block := peekPos, buffers[peekBuffer];
        var m := BLOCK_SIZE - peekPos;
        var n;
        if m > left {
          n := left;
          left := 0;
          BetweenStep(vals, peekBuffer, from, readPos, s, n);
          seen := seen + n;
        } else {
          left := left - m;
          n := m;
          BetweenStep(vals, peekBuffer, from, readPos, s, n);
          WrittenNext(vals, peekBuffer);
          peekBuffer := peekBuffer + 1;
          peekPos, seen := 0, 0;
        }
        s := s + block[from..from + n];
      }
      WrittenOrdered(vals, peekBuffer, seen, writeBuffer, writePos);
    }

    method RetriveAsString(len: nat) returns (s: seq<Byte>)
      requires Valid() && len <= readableBytes
      modifies this
      ensures Valid() && s + content == old(content) && |s| == len && |buffers| == |old(buffers)|
    {
      s := PeekAsString(len);
      var _ := Retrive(len);
    }

    method RetriveAllAsString() returns (s: seq<Byte>)
      requires Valid()
      modifies this
      ensures Valid() && s == old(content) && content == []
      ensures buffers == old(buffers) && WritableBytes() == |buffers| * BLOCK_SIZE
    {
      s := PeekAsString(readableBytes);
      RetriveAll();
    }

    // ------------------------------------------------------------ putting bytes in

    /** Appending also repairs a write cursor that UnWrite left at the end of a block. */
    method Append(data: seq<Byte>)
      requires Loose()
      modifies this, buffers
      ensures Loose() && content == old(content) + data
      ensures data != [] || old(Valid()) ==> Valid()
      ensures Grown() && Stretched()
      // a block is added only where the list ends, for as many bytes as need it
      ensures data != [] || old(Valid()) ==> |buffers| == Larger(|old(buffers)|, BlocksFor(readPos + |content|))
    {
      hide Between, Distinct, Sized, BlocksFor;
      readableBytes := readableBytes + |data|;
      PutAll(data);
      if writePos < BLOCK_SIZE {
        CursorBlock(writeBuffer, writePos);
      }
    }

    /** The loop of Append. */
    method PutAll(data: seq<Byte>)
      requires Holds()
      modifies this`writePos, this`writeBuffer, this`buffers, this`content, buffers
      ensures Holds() && content == old(content) + data && Grown() && Stretched()
      ensures data != [] || old(writePos) < BLOCK_SIZE ==> writePos < BLOCK_SIZE
    {
      hide Between, Distinct, Sized;
      var done: nat := 0;
      assert content == old(content) + data[..done];
      while done < |data|
        invariant done <= |data|
        invariant Holds() && content == old(content) + data[..done]
        invariant done > 0 || old(writePos) < BLOCK_SIZE ==> writePos < BLOCK_SIZE
        invariant Grown() && Stretched()
        decreases |data| - done, writePos
      {
        var m, left := BLOCK_SIZE - writePos, |data| - done;
        var n := if m > left then left else m;
        TakeMore(old(content), data, done, n);
        Put(data[done..done + n]);
        done := done + n;
      }
      assert data[..done] == data;
    }

    /** One memcpy into the write cursor's block, after which the cursor is inside a block. */
    method Put(part: seq<Byte>)
      requires Holds() && writePos + |part| <= BLOCK_SIZE
      modifies this`writePos, this`writeBuffer, this`buffers, this`content, buffers[writeBuffer]
      ensures Holds() && content == old(content) + part && Grown()
      ensures writePos == if old(writePos) + |part| < BLOCK_SIZE then old(writePos) + |part| else 0
      ensures old(writeBuffer) <= writeBuffer && |buffers| == Larger(|old(buffers)|, writeBuffer + 1)
    {
      hide Between;
      if BLOCK_SIZE - writePos > |part| {
        PutInside(part);
      } else {
        PutAcross(part);
      }
    }

    /** The bytes fit into the write cursor's block with room to spare. */
    method PutInside(part: seq<Byte>)
      requires Holds() && writePos + |part| < BLOCK_SIZE
      modifies this`writePos, this`content, buffers[writeBuffer]
      ensures Holds() && writePos == old(writePos) + |part| && content == old(content) + part
    {
      hide Between;
      ghost var vals := Vals(buffers);
      var from := writePos;
      writePos := writePos + |part|;
      CopyAt(writeBuffer, from, part);
      content := content + part;
      BetweenPut(vals, Vals(buffers), writeBuffer, from, readPos, old(content), part);
    }

    /** The bytes fill the write cursor's block; the cursor steps to the next one, which
        is allocated if the list ends here. */
    method PutAcross(part: seq<Byte>)
      requires Holds() && writePos + |part| == BLOCK_SIZE
      modifies this`writePos, this`writeBuffer, this`buffers, this`content, buffers[writeBuffer]
      ensures Holds() && writePos == 0 && content == old(content) + part
      ensures Grown() && writeBuffer == old(writeBuffer) + 1 && |buffers| == Larger(|old(buffers)|, writeBuffer + 1)
    {
      var from, k := writePos, writeBuffer;
      ghost var vals := Vals(buffers);
      NextBlock();
      ghost var grown := Vals(buffers);
      CopyAt(k, from, part);
      hide Between, Distinct, Sized;
      content := content + part;
      BetweenGrown(vals, grown, k, from, readPos, old(content));
      BetweenPut(grown, Vals(buffers), k, from, readPos, old(content), part);
      BetweenNext(Vals(buffers), k, readPos, content);
    }

    /** memcpy into one block of the list. */
    method CopyAt(k: nat, at: nat, part: seq<Byte>)
      requires Distinct(buffers) && Sized(buffers, BLOCK_SIZE) && k < |buffers| && at + |part| <= BLOCK_SIZE
      modifies buffers[k]
      ensures Vals(buffers) == old(Vals(buffers))[k := old(buffers[k][..at]) + part + old(buffers[k][at + |part|..])]
    {
      CopyInto(buffers[k], at, part);
    }

    method NextBlock()
      requires Shape()
      modifies this`writePos, this`writeBuffer, this`buffers
      ensures Shape() && writeBuffer == old(writeBuffer) + 1 && writePos == 0
      ensures Grown() && old(Vals(buffers)) <= Vals(buffers) && |buffers| == Larger(|old(buffers)|, writeBuffer + 1)
    {
      hide Distinct, Sized;
      if writeBuffer + 1 == |buffers| {
        EmplaceBack();
      }
      writeBuffer := writeBuffer + 1;
      writePos := 0;
    }

    method EmplaceBack()
      requires Shape()
      modifies this`buffers
      ensures Shape() && |buffers| == |old(buffers)| + 1
      ensures old(buffers) <= buffers && fresh(buffers[|old(buffers)|])
      ensures old(Vals(buffers)) <= Vals(buffers)
    {
      ghost var vals := Vals(buffers);
      var block := new Byte[BLOCK_SIZE];
      buffers := buffers + [block];
      assert Vals(buffers) == vals + [block[..]];
    }

    method AppendBuffer(buffer: ChainBuffer)
      requires Valid() && buffer.Valid()
      requires buffer != this && Apart(buffers, buffer.buffers)
      modifies this, buffers
      ensures Valid() && content == old(content) + buffer.content
      ensures buffer.Valid() && Owned() && readPos == old(readPos) && old(buffers) <= buffers
      ensures |buffers| == Larger(|old(buffers)|, BlocksFor(readPos + |content|))
    {
      hide Between, Distinct, BlocksFor;
      ghost var vals := Vals(buffer.buffers);
      var peekPos;
      ghost var done;
      peekPos, done := AppendBlocks(buffer);
      var part := buffer.buffers[buffer.writeBuffer][peekPos..buffer.writePos];
      BetweenStep(vals, buffer.writeBuffer, peekPos, buffer.readPos, done, buffer.writePos - peekPos);
      BetweenUnique(vals, buffer.writeBuffer, buffer.writePos, buffer.readPos, done + part, buffer.content);
      AppendPart(buffer, part);
      CursorBlock(writeBuffer, writePos);
    }

    /** Appends what the other buffer holds before its write cursor's block. */
    method AppendBlocks(buffer: ChainBuffer) returns (peekPos: nat, ghost done: seq<Byte>)
      requires Valid() && buffer.Valid()
      requires buffer != this && Apart(buffers, buffer.buffers)
      modifies this, buffers
      ensures Valid() && content == old(content) + done && Owned() && Stretched()
      ensures buffer.Valid() && Apart(buffers, buffer.buffers) && Vals(buffer.buffers) == old(Vals(buffer.buffers))
      ensures Between(Vals(buffer.buffers), buffer.writeBuffer, peekPos, buffer.readPos, done)
      ensures peekPos <= buffer.writePos
    {
      ghost var vals := Vals(buffer.buffers);
      assert buffer.Shape();
      hide Between, Loose, Distinct, Apart, Sized;
      var peekBuffer := buffer.readBuffer;
      peekPos, done := buffer.readPos, [];
      BetweenStart(vals, peekPos);
      while peekBuffer != buffer.writeBuffer
        invariant Valid() && Owned() && Stretched()
        invariant buffer.Valid() && Apart(buffers, buffer.buffers) && Vals(buffer.buffers) == vals
        invariant peekBuffer <= buffer.writeBuffer
        invariant peekPos == if peekBuffer == 0 then buffer.readPos else 0
        invariant content == old(content) + done && Between(vals, peekBuffer, peekPos, buffer.readPos, done)
        decreases buffer.writeBuffer - peekBuffer
      {
        ghost var part := AppendRest(buffer, peekBuffer, peekPos, done);
        ConcatAssoc(old(content), done, part);
        done := done + part;
        peekBuffer, peekPos := peekBuffer + 1, 0;
      }
    }

    /** Appends the rest of one block of the other buffer. */
    method AppendRest(buffer: ChainBuffer, k: nat, pos: nat, ghost done: seq<Byte>) returns (ghost part: seq<Byte>)
      requires Valid() && buffer.Valid()
      requires buffer != this && Apart(buffers, buffer.buffers)
      requires k < buffer.writeBuffer && pos < BLOCK_SIZE
      requires Between(Vals(buffer.buffers), k, pos, buffer.readPos, done)
      modifies this, buffers
      ensures Valid() && content == old(content) + part && Owned() && Stretched()
      ensures buffer.Valid() && Apart(buffers, buffer.buffers) && Vals(buffer.buffers) == old(Vals(buffer.buffers))
      ensures Between(Vals(buffer.buffers), k + 1, 0, buffer.readPos, done + part)
    {
      hide Between, Distinct;
      part := buffer.buffers[k][pos..];
      BetweenRest(Vals(buffer.buffers), k, pos, buffer.readPos, done);
      AppendPart(buffer, buffer.buffers[k][pos..]);
    }

    /** Appending touches no block of another buffer. */
    method AppendPart(buffer: ChainBuffer, data: seq<Byte>)
      requires Valid() && buffer.Valid() && buffer != this && Apart(buffers, buffer.buffers)
      modifies this, buffers
      ensures Valid() && content == old(content) + data && Owned() && Stretched()
      ensures buffer.Valid() && Apart(buffers, buffer.buffers) && Vals(buffer.buffers) == old(Vals(buffer.buffers))
    {
      hide Between;
      Append(data);
      SameVals(buffer.buffers);
    }

    // ------------------------------------------------------------ moving the write cursor

    /** All bytes of all blocks. */
    ghost function Storage(): (bytes: seq<Byte>)
      requires Sized(buffers, BLOCK_SIZE)
      reads this, buffers
      ensures |bytes| == |buffers| * BLOCK_SIZE
    {
      FlatLength(Vals(buffers), BLOCK_SIZE);
      Flat(Vals(buffers))
    }

    /** The cursor `len` bytes further on; it stands behind the last block if these are all. */
    method Forward(k: nat, off: nat, len: nat) returns (k': nat, off': nat)
      requires off < BLOCK_SIZE && k * BLOCK_SIZE + off + len <= |buffers| * BLOCK_SIZE
      ensures k' * BLOCK_SIZE + off' == k * BLOCK_SIZE + off + len
      ensures k' <= |buffers| && off' < BLOCK_SIZE
      ensures k' < |buffers| <==> k * BLOCK_SIZE + off + len < |buffers| * BLOCK_SIZE
    {
      k', off' := k, off;
      var left: nat := len;
      while left > 0
        invariant k' * BLOCK_SIZE + off' + left == k * BLOCK_SIZE + off + len && off' < BLOCK_SIZE
        decreases left
      {
        var n := BLOCK_SIZE - off';
        if n > left {
          off' := off' + left;
          left := 0;
        } else {
          k', off' := k' + 1, 0;
          left := left - n;
        }
      }
    }

    /** The cursor `len` bytes back; a step onto a block boundary stops at the end of the
        earlier block. */
    method BackWard(k: nat, off: nat, len: nat) returns (k': int, off': nat)
      requires off <= BLOCK_SIZE && len <= k * BLOCK_SIZE + off
      ensures k' >= 0 <==> len == 0 || len < k * BLOCK_SIZE + off   // else it stands before the first block
      ensures k' >= 0 ==> k' * BLOCK_SIZE + off' == k * BLOCK_SIZE + off - len
      ensures k' <= k && off' <= BLOCK_SIZE
      ensures len > 0 ==> off' > 0
      ensures len == 0 ==> k' == k && off' == off
    {
      k', off' := k, off;
      var left: nat := len;
      while left > 0
        invariant k' * BLOCK_SIZE + off' - left == k * BLOCK_SIZE + off - len
        invariant -1 <= k' <= k && off' <= BLOCK_SIZE && (k' == -1 ==> off' == BLOCK_SIZE && left == 0)
        invariant left == 0 && len > 0 ==> off' > 0
        invariant len == 0 ==> k' == k && off' == off
        decreases k', left
      {
        var n := off';
        if n > left {
          off' := off' - left;
          left := 0;
        } else {
          k', off' := k' - 1, BLOCK_SIZE;
          left := left - n;
        }
      }
    }

    /** The `len` bytes that already stand behind the write cursor become readable. */
    method HasWrite(len: nat)
      requires Valid() && len <= WritableBytes()
      modifies this
      ensures buffers == old(buffers) && readPos == old(readPos) && readableBytes == old(readableBytes) + len
      // if these are all the writable bytes, the cursor leaves the list and the invariant is gone
      ensures Valid() <==> len < old(WritableBytes())
      ensures len == old(WritableBytes()) ==> writeBuffer == |buffers| && writePos == 0
      ensures Valid() ==> content == Storage()[readPos..readPos + |old(content)| + len] && old(content) <= content
    {
      hide Between, Flat, Distinct;
      ghost var k, off, vals := writeBuffer, writePos, Vals(buffers);
      assert Uniform(vals, BLOCK_SIZE) && Storage() == Flat(vals);
      var k', off' := Forward(writeBuffer, writePos, len);
      if k' < |buffers| {
        ghost var all := Flat(vals)[readPos..k' * BLOCK_SIZE + off'];
        BetweenLater(vals, k, off, k', off', readPos, content, all);
        content := all;
      }
      writeBuffer, writePos := k', off';
      readableBytes := readableBytes + len;
    }

    /** Gives up the last `len` bytes. If nothing is left before the cursor, the code steps before
        the first block, which is undefined: `inside` is false and nothing is done here. Else the
        cursor may come to rest at the end of a block, where the representation invariant fails:
        exactly when it lands on a boundary. */
    method UnWrite(len: nat) returns (inside: bool)
      requires Valid() && len <= readableBytes
      modifies this
      ensures inside <==> len == 0 || len < old(readPos + readableBytes)
      ensures inside ==> Loose() && content == old(content)[..|old(content)| - len]
      ensures inside ==> (Valid() <==> len == 0 || (readPos + readableBytes) % BLOCK_SIZE != 0)
      ensures !inside ==> content == old(content) && Valid()
      ensures buffers == old(buffers) && readPos == old(readPos)
    {
      hide Between;
      ghost var k, off := writeBuffer, writePos;
      var k', off' := BackWard(writeBuffer, writePos, len);
      inside := k' >= 0;
      if inside {
        writeBuffer, writePos := k', off';
        readableBytes := readableBytes - len;
        content := content[..readableBytes];
        BetweenEarlier(Vals(buffers), k, off, writeBuffer, writePos, readPos, old(content), content);
        if len > 0 {
          Boundary(writeBuffer, writePos);
        }
      }
    }

    /** Frees the blocks not needed for `reserve` writable bytes. */
    method Shrink(reserve: nat)
      requires Valid()
      modifies this
      ensures Valid() && content == old(content) && readPos == old(readPos)
      ensures buffers <= old(buffers)
      ensures old(WritableBytes()) <= reserve ==> buffers == old(buffers)
      ensures old(WritableBytes()) > reserve ==> reserve < WritableBytes() <= reserve + BLOCK_SIZE
    {
      hide Between, Distinct, Sized;
      if WritableBytes() <= reserve {
        return;
      }
      var peekBuffer, _ := Forward(writeBuffer, writePos, reserve);
      Truncate(peekBuffer + 1);
    }

    /** Drops every block behind the first `m`; the write cursor's block is among them. */
    method Truncate(m: nat)
      requires Holds() && writeBuffer < m <= |buffers|
      modifies this`buffers
      ensures Holds() && buffers == old(buffers)[..m]
    {
      hide Between, Distinct, Sized;
      ValsTake(buffers, m);
      ListTake(buffers, m, BLOCK_SIZE);
      BetweenTake(Vals(buffers), m, writeBuffer, writePos, readPos, content);
      buffers := buffers[..m];
    }

    // ------------------------------------------------------------ system calls

    /** The block space that ReadFd offers to readv, in at most 15 vectors. */
    function ReadWindow(): (n: int)
      requires Shape()
      reads this
    {
      if |buffers| - writeBuffer < MAX_VEC_SIZE then WritableBytes() else (MAX_VEC_SIZE - 1) * BLOCK_SIZE - writePos
    }

    /** Reads what the kernel has ready: `incoming`, as far as the vectors reach. */
    method ReadFd(incoming: Outcome<seq<Byte>>) returns (r: Outcome<nat>)
      requires Valid()
      modifies this, buffers
      ensures Valid() && Grown() && readPos == old(readPos)
      ensures incoming.Failed? ==> r == Failed(incoming.errno) && content == old(content)
      ensures incoming.Done? ==>
        && r.Done? && r.value == Min(|incoming.value|, old(ReadWindow()) + EXTRA_SPACE)
        && content == old(content) + incoming.value[..r.value]
      ensures |buffers| == Larger(|old(buffers)|, BlocksFor(readPos + |content|))
    {
      hide Between, Distinct, Flat, Covers, Landed, BlocksFor;
      var extra := new Byte[EXTRA_SPACE];
      var vec := ReadVec();
      match incoming
      case Failed(errno) =>
        r := Failed(errno);
        CursorBlock(writeBuffer, writePos);
      case Done(bytes) =>
        var readn := Min(|bytes|, |vec| * BLOCK_SIZE - writePos + EXTRA_SPACE);
        Receive(vec, extra, bytes[..readn]);
        Commit(writeBuffer + |vec|, extra, bytes[..readn]);
        r := Done(readn);
    }

    /** One vector for the rest of the write cursor's block and one for each block behind it,
        up to the limit; the vector for the overflow area is added by Receive. */
    method ReadVec() returns (vec: seq<IoVec>)
      requires Shape() && writePos < BLOCK_SIZE
      ensures vec != [] && Covers(vec, buffers, writeBuffer, writePos, BLOCK_SIZE)
      ensures |vec| * BLOCK_SIZE - writePos == ReadWindow()
    {
      var peekBuffer, peekPos := writeBuffer, writePos;
      vec := [];
      while peekBuffer != |buffers| && |vec| < MAX_VEC_SIZE - 1
        invariant peekBuffer == writeBuffer + |vec| <= |buffers| && |vec| < MAX_VEC_SIZE
        invariant peekPos == if vec == [] then writePos else 0
        invariant Covers(vec, buffers, writeBuffer, writePos, BLOCK_SIZE)
        decreases |buffers| - peekBuffer
      {
        vec := vec + [IoVec(buffers[peekBuffer], peekPos, BLOCK_SIZE - peekPos)];
        peekBuffer, peekPos := peekBuffer + 1, 0;
      }
    }

    /** The readv call: the bytes land in the blocks behind the write cursor, then in `extra`. */
    method Receive(vec: seq<IoVec>, extra: Block, bytes: seq<Byte>)
      requires Valid() && extra !in buffers && vec != []
      requires Covers(vec, buffers, writeBuffer, writePos, BLOCK_SIZE)
      requires |bytes| <= |vec| * BLOCK_SIZE - writePos + extra.Length
      modifies buffers, extra
      ensures Valid() && Landed(writeBuffer + |vec|, extra, bytes)
    {
      hide Between, Flat, Room, Total;
      ghost var vals := Vals(buffers);
      TotalCovers(vec, buffers, writeBuffer, writePos, BLOCK_SIZE);
      ReadBlocks(vec, buffers, writeBuffer, writePos, BLOCK_SIZE, extra, bytes);
      ghost var n := Min(|bytes|, |vec| * BLOCK_SIZE - writePos);
      Received(vals, Vals(buffers), writeBuffer, writePos, writeBuffer + |vec|, readPos, content, bytes[..n]);
    }

    /** `bytes` stand behind the write cursor up to block `k`, and their overflow in `extra`. */
    ghost predicate Landed(k: nat, extra: Block, bytes: seq<Byte>)
      requires Valid()
      reads this, buffers, extra
    {
      && writeBuffer < k <= |buffers|
      && var n := Min(|bytes|, (k - writeBuffer) * BLOCK_SIZE - writePos);
      && Storage()[readPos..readPos + |content| + n] == content + bytes[..n]
      && |bytes| - n <= extra.Length && extra[..|bytes| - n] == bytes[n..]
    }

    /** After the readv call: count the bytes in the blocks and append the overflow. */
    method Commit(peekBuffer: nat, extra: Block, bytes: seq<Byte>)
      requires Valid() && Landed(peekBuffer, extra, bytes) && extra !in buffers
      modifies this, buffers
      ensures Valid() && Grown() && readPos == old(readPos) && content == old(content) + bytes
      ensures |buffers| == Larger(|old(buffers)|, BlocksFor(readPos + |content|))
    {
      hide Between, Flat, Distinct, BlocksFor;
      var writable := (peekBuffer - writeBuffer) * BLOCK_SIZE - writePos;
      if |bytes| >= writable {
        MoveTo(peekBuffer, bytes[..writable]);
        readableBytes := readableBytes + writable;
        assert bytes == bytes[..writable] + extra[..|bytes| - writable];
        Append(extra[..|bytes| - writable]);
      } else {
        assert bytes[..|bytes|] == bytes;
        HasWrite(|bytes|);
      }
      CursorBlock(writeBuffer, writePos);
    }

    /** The write cursor steps over a filled stretch to the start of block `k`, which is
        allocated if the list ends there. */
    method MoveTo(k: nat, filled: seq<Byte>)
      requires Valid() && writeBuffer < k <= |buffers|
      requires readPos + |content| + |filled| == k * BLOCK_SIZE
      requires Storage()[readPos..k * BLOCK_SIZE] == content + filled
      modifies this`buffers, this`writeBuffer, this`writePos, this`content
      ensures Holds() && writePos < BLOCK_SIZE && content == old(content) + filled && Grown()
      ensures writeBuffer == k && |buffers| == Larger(|old(buffers)|, k + 1)
    {
      hide Between, Flat, Distinct, Sized, Uniform;
      ghost var vals := Vals(buffers);
      SizedUniform(buffers, BLOCK_SIZE);
      if k == |buffers| {
        EmplaceBack();
      }
      SizedUniform(buffers, BLOCK_SIZE);
      writeBuffer, writePos := k, 0;
      content := content + filled;
      BetweenFilled(vals, Vals(buffers), k, readPos, content);
    }

    /** The readable bytes that WriteFd offers to writev, in at most 16 vectors. */
    function WriteWindow(): (n: int)
      requires Shape()
      reads this
    {
      if writeBuffer < MAX_VEC_SIZE then writeBuffer * BLOCK_SIZE + writePos - readPos else MAX_VEC_SIZE * BLOCK_SIZE - readPos
    }

    /** Writes as much of the front of the buffer as the kernel accepts: `accepts` bytes, as
        far as the vectors reach. */
    method WriteFd(accepts: Outcome<nat>) returns (r: Outcome<nat>, sent: seq<Byte>)
      requires Valid()
      modifies this
      ensures Valid() && sent + content == old(content)
      ensures accepts.Failed? ==> r == Failed(accepts.errno) && sent == []
      ensures accepts.Done? ==> r == Done(|sent|) && |sent| == Min(accepts.value, old(WriteWindow()))
      ensures |buffers| == |old(buffers)| && forall b :: b in buffers <==> b in old(buffers)
    {
      hide Between;
      var vec := WriteVec();
      match accepts
      case Failed(errno) =>
        r, sent := Failed(errno), [];
      case Done(limit) =>
        var writen := Min(limit, Total(vec));
        sent := Gather(vec)[..writen];
        var k := Retrive(writen);
        r := Done(writen);
    }

    method WriteVec() returns (vec: seq<IoVec>)
      requires Valid()
      ensures WellFormed(vec) && Gather(vec) <= content && Total(vec) == WriteWindow()
    {
      hide Between, Gather, Total;
      var peekBuffer, peekPos := readBuffer, readPos;
      vec := [];
      ghost var vals := Vals(buffers);
      assert Gather([]) == [] by { GatherNone(); }
      BetweenStart(vals, readPos);
      while peekBuffer != writeBuffer && |vec| < MAX_VEC_SIZE
        invariant peekBuffer == |vec| <= writeBuffer && |vec| <= MAX_VEC_SIZE
        invariant peekPos == if vec == [] then readPos else 0
        invariant WellFormed(vec) && Between(vals, peekBuffer, peekPos, readPos, Gather(vec))
        decreases writeBuffer - peekBuffer
      {
        var v := IoVec(buffers[peekBuffer], peekPos, BLOCK_SIZE - peekPos);
        BetweenRest(vals, peekBuffer, peekPos, readPos, Gather(vec));
        GatherSnoc(vec, v);
        assert Window(v) == vals[peekBuffer][peekPos..];
        vec := vec + [v];
        peekBuffer, peekPos := peekBuffer + 1, 0;
      }
      if peekBuffer == writeBuffer && |vec| < MAX_VEC_SIZE {
        var v := IoVec(buffers[peekBuffer], peekPos, writePos - peekPos);
        BetweenStep(vals, peekBuffer, peekPos, readPos, Gather(vec), writePos - peekPos);
        GatherSnoc(vec, v);
        vec := vec + [v];
        BetweenUnique(vals, writeBuffer, writePos, readPos, Gather(vec), content);
      } else {
        BetweenPrefix(vals, peekBuffer, peekPos, writeBuffer, writePos, readPos, Gather(vec), content);
      }
    }

    // ------------------------------------------------------------ whole runs

    /** Performs any sequence of operations. `trace` records the value of the queue between
        operations and `outs` what each operation hands out: a plain byte queue could have
        made every one of the steps. */
    method Perform(ops: seq<Op>) returns (outs: seq<seq<Byte>>, ghost trace: seq<seq<Byte>>)
      requires Valid() && forall i :: 0 <= i < |ops| ==> Guest(ops[i])
      modifies this, buffers
      ensures Valid()
      ensures |outs| == |ops| && |trace| == |ops| + 1
      ensures trace[0] == old(content) && trace[|ops|] == content
      ensures forall i :: 0 <= i < |ops| ==> QueueStep(trace[i], ops[i], outs[i], trace[i + 1])
      // consumed blocks are used again: one block more than the bytes ever held is enough
      ensures forall k: nat :: Within(trace, k) ==> |buffers| <= Larger(|old(buffers)|, k + 1)
      // and blocks are given up by Shrink only
      ensures (forall i :: 0 <= i < |ops| ==> !ops[i].Shrink?) ==> |buffers| >= |old(buffers)|
    {
      hide Loose, ChainBuffer.Valid, QueueStep, Within;
      outs, trace := [], [content];
      for i := 0 to |ops|
        invariant Valid() && Owned() && forall j :: 0 <= j < |ops| ==> Guest(ops[j])
        invariant |outs| == i && |trace| == i + 1 && trace[0] == old(content) && trace[i] == content
        invariant forall j :: 0 <= j < i ==> QueueStep(trace[j], ops[j], outs[j], trace[j + 1])
        invariant forall k: nat :: Within(trace, k) ==> |buffers| <= Larger(|old(buffers)|, k + 1)
        invariant (forall j :: 0 <= j < i ==> !ops[j].Shrink?) ==> |buffers| >= |old(buffers)|
      {
        var out := PerformOne(ops[i]);
        forall k: nat | Within(trace + [content], k) ensures Within(trace, k) && BlocksFor(readPos + |content|) <= k + 1 {
          WithinFront(trace, content, k);
          BlocksBound(|content|, readPos, k);
        }
        outs, trace := outs + [out], trace + [content];
      }
    }

    /** The other buffer of an operation is another one, with blocks of its own. */
    ghost predicate Guest(op: Op)
      reads *
    {
      op.AppendBuffer? ==>
        op.other != this && op.other.Valid() && op.other.content == op.bytes && Apart(buffers, op.other.buffers)
    }

    method PerformOne(op: Op) returns (out: seq<Byte>)
      requires Valid() && Guest(op)
      modifies this, buffers
      ensures Valid() && Owned() && QueueStep(old(content), op, out, content)
      ensures readPos < BLOCK_SIZE && |buffers| <= Larger(|old(buffers)|, BlocksFor(readPos + |content|))
      ensures !op.Shrink? ==> |buffers| >= |old(buffers)|
    {
      hide Between, Distinct, Sized, BlocksFor;
      out := [];
      match op
      case Append(data) => Append(data);
      case AppendBuffer(other, _) => AppendBuffer(other);
      case Retrive(n) => if n <= readableBytes { var k := Retrive(n); }
      case RetriveAll => RetriveAll();
      case Peek(n) => if n <= readableBytes { out := PeekAsString(n); }
      case Shrink(reserve) => Shrink(reserve);
      case Receive(incoming) =>
        var r := ReadFd(incoming);
        assert incoming.Done? ==> Min(|incoming.value|, EXTRA_SPACE) <= r.value;
      case Send(accepts) =>
        var r;
        r, out := WriteFd(accepts);
    }
  }

  lemma ListRotate(bs: seq<Block>)
    requires Distinct(bs) && Sized(bs, BLOCK_SIZE) && |bs| > 0
    ensures Distinct(bs[1..] + [bs[0]]) && Sized(bs[1..] + [bs[0]], BLOCK_SIZE)
    ensures bs[1..] + [bs[0]] == Rotated(bs, 1)
  {
  }

  /** With blocks of the standard size the bytes in question are a slice of the storage. */
  lemma BetweenFlat(bs: seq<seq<Byte>>, k: nat, off: nat, start: nat)
    requires Uniform(bs, BLOCK_SIZE) && k < |bs| && off <= BLOCK_SIZE && start <= k * BLOCK_SIZE + off
    ensures k * BLOCK_SIZE + off <= |Flat(bs)| == |bs| * BLOCK_SIZE
    ensures Between(bs, k, off, start, Flat(bs)[start..k * BLOCK_SIZE + off])
    ensures forall s :: Between(bs, k, off, start, s) ==> s == Flat(bs)[start..k * BLOCK_SIZE + off]
  {
    hide Written, Flat;
    WrittenFlat(bs, k, off, BLOCK_SIZE);
    FlatLength(bs, BLOCK_SIZE);
  }

  /** The first `k` blocks, from `start` on, with the cursor behind them. */
  lemma BetweenFilled(bs: seq<seq<Byte>>, bs': seq<seq<Byte>>, k: nat, start: nat, s: seq<Byte>)
    requires Uniform(bs, BLOCK_SIZE) && Uniform(bs', BLOCK_SIZE) && bs <= bs' && k <= |bs| && k < |bs'|
    requires start <= k * BLOCK_SIZE <= |Flat(bs)| && s == Flat(bs)[start..k * BLOCK_SIZE]
    ensures Between(bs', k, 0, start, s)
  {
    hide Between, Flat;
    FlatLonger(bs, bs', start, k * BLOCK_SIZE);
    BetweenFlat(bs', k, 0, start);
  }

  lemma BetweenLater(bs: seq<seq<Byte>>, k: nat, off: nat, k': nat, off': nat, start: nat, s: seq<Byte>, s': seq<Byte>)
    requires Uniform(bs, BLOCK_SIZE) && k < |bs| && k' < |bs| && off <= BLOCK_SIZE && off' <= BLOCK_SIZE
    requires start <= k * BLOCK_SIZE + off <= k' * BLOCK_SIZE + off' <= |Flat(bs)|
    requires Between(bs, k, off, start, s) && s' == Flat(bs)[start..k' * BLOCK_SIZE + off']
    ensures Between(bs, k', off', start, s') && s <= s'
  {
    hide Between, Flat;
    BetweenFlat(bs, k, off, start);
    BetweenFlat(bs, k', off', start);
  }

  lemma BetweenEarlier(bs: seq<seq<Byte>>, k: nat, off: nat, k': nat, off': nat, start: nat, s: seq<Byte>,
      s': seq<Byte>)
    requires Uniform(bs, BLOCK_SIZE) && k < |bs| && k' < |bs| && off <= BLOCK_SIZE && off' <= BLOCK_SIZE
    requires start <= k' * BLOCK_SIZE + off' <= k * BLOCK_SIZE + off
    requires Between(bs, k, off, start, s) && s' <= s && |s'| == k' * BLOCK_SIZE + off' - start
    ensures Between(bs, k', off', start, s')
  {
    hide Between, Flat;
    BetweenFlat(bs, k, off, start);
    BetweenFlat(bs, k', off', start);
    assert s' == Flat(bs)[start..k' * BLOCK_SIZE + off'];
  }

  lemma Boundary(k: nat, off: nat)
    requires 0 < off <= BLOCK_SIZE
    ensures (k * BLOCK_SIZE + off) % BLOCK_SIZE == 0 <==> off == BLOCK_SIZE
  {
  }

  /** Bytes that land behind the cursor extend what lies before it. */
  lemma Received(bs: seq<seq<Byte>>, bs': seq<seq<Byte>>, k: nat, off: nat, m: nat, start: nat, s: seq<Byte>,
      bytes: seq<Byte>)
    requires Uniform(bs, BLOCK_SIZE) && Uniform(bs', BLOCK_SIZE) && k < m <= |bs| == |bs'|
    requires off <= BLOCK_SIZE && start <= k * BLOCK_SIZE + off && Between(bs, k, off, start, s)
    requires bs'[..k] == bs[..k] && bs'[k][..off] == bs[k][..off]
    requires bytes <= Room(bs', k, off, m)
    ensures Between(bs', k, off, start, s)
    ensures k * BLOCK_SIZE + off + |bytes| <= |Flat(bs')|
    ensures Flat(bs')[start..k * BLOCK_SIZE + off + |bytes|] == s + bytes
  {
    hide Flat, Room;
    WrittenLength(bs, k, off, BLOCK_SIZE);
    WrittenRoom(bs', k, off, m);
    assert Flat(bs')[..k * BLOCK_SIZE + off + |bytes|] == Written(bs, k, off) + bytes;
  }

  lemma BetweenPrefix(bs: seq<seq<Byte>>, k: nat, off: nat, k': nat, off': nat, start: nat, s: seq<Byte>, s': seq<Byte>)
    requires Uniform(bs, BLOCK_SIZE) && k <= k' < |bs| && off <= BLOCK_SIZE && off' <= BLOCK_SIZE
    requires k == k' ==> off <= off'
    requires Between(bs, k, off, start, s) && Between(bs, k', off', start, s')
    ensures s <= s' && |s| == k * BLOCK_SIZE + off - start
  {
    hide Written;
    WrittenOrdered(bs, k, off, k', off');
    WrittenLength(bs, k, off, BLOCK_SIZE);
  }
}
