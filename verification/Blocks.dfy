/** Storage made of blocks: how a list of blocks spells out one byte string, what a
    cursor inside it has behind it, and how scatter/gather vectors cover a part of it.
    Both connection buffers are built on this module. */
module Blocks {

  /** A C++ `char` as the buffers use it: eight bits without a meaning. */
  newtype Byte = b: int | 0 <= b < 256

  type Block = array<Byte>

  // ---------------------------------------------------------------- block lists as values

  /** The bytes of all blocks, one block after the other. */
  function Flat<T>(bs: seq<seq<T>>): seq<T> {
    if bs == [] then [] else bs[0] + Flat(bs[1..])
  }

  /** What lies before the cursor standing at offset `off` of block `k`. */
  function Written<T>(bs: seq<seq<T>>, k: nat, off: nat): seq<T>
    requires k < |bs| && off <= |bs[k]|
  {
    Flat(bs[..k]) + bs[k][..off]
  }

  predicate Uniform<T>(bs: seq<seq<T>>, size: nat) {
    forall i :: 0 <= i < |bs| ==> |bs[i]| == size
  }

  lemma {:induction false} FlatConcat<T>(a: seq<seq<T>>, b: seq<seq<T>>)
    ensures Flat(a + b) == Flat(a) + Flat(b)
  {
    if a == [] {
      assert a + b == b;
    } else {
      assert (a + b)[0] == a[0] && (a + b)[1..] == a[1..] + b;
      FlatConcat(a[1..], b);
      assert Flat(a + b) == a[0] + (Flat(a[1..]) + Flat(b));
    }
  }

  lemma FlatSingle<T>(b: seq<T>)
    ensures Flat([b]) == b
  {
    assert [b][1..] == [];
    assert Flat([b]) == b + Flat<T>([]);
  }

  lemma {:induction false} FlatLength<T>(bs: seq<seq<T>>, size: nat)
    requires Uniform(bs, size)
    ensures |Flat(bs)| == |bs| * size
  {
    if bs != [] {
      FlatLength(bs[1..], size);
      assert |bs| * size == (|bs| - 1) * size + size;
    }
  }

  /** A cursor at the end of a block and one at the start of the next have the same past. */
  lemma WrittenNext<T>(bs: seq<seq<T>>, k: nat)
    requires k + 1 < |bs|
    ensures Written(bs, k + 1, 0) == Written(bs, k, |bs[k]|)
  {
    assert bs[..k + 1] == bs[..k] + [bs[k]];
    FlatConcat(bs[..k], [bs[k]]);
    FlatSingle(bs[k]);
  }

  /** Dropping the first block drops exactly its bytes from the cursor's past. */
  lemma WrittenTail<T>(bs: seq<seq<T>>, k: nat, off: nat)
    requires 0 < k < |bs| && off <= |bs[k]|
    ensures Written(bs, k, off) == bs[0] + Written(bs[1..], k - 1, off)
  {
    assert bs[..k] == [bs[0]] + bs[1..][..k - 1];
    FlatConcat([bs[0]], bs[1..][..k - 1]);
    FlatSingle(bs[0]);
  }

  /** Copying `data` at the cursor and advancing it appends `data` to the cursor's past. */
  lemma WrittenPut<T>(bs: seq<seq<T>>, bs': seq<seq<T>>, k: nat, off: nat, data: seq<T>)
    requires k < |bs| == |bs'| && off + |data| <= |bs[k]|
    requires bs' == bs[k := bs[k][..off] + data + bs[k][off + |data|..]]
    ensures Written(bs', k, off + |data|) == Written(bs, k, off) + data
  {
    assert bs'[..k] == bs[..k];
    assert bs'[k][..off + |data|] == bs[k][..off] + data;
  }

  /** The past of a cursor inside the first `m` blocks is a prefix of those blocks. */
  lemma WrittenPrefix<T>(bs: seq<seq<T>>, k: nat, off: nat, m: nat)
    requires k < m <= |bs| && off <= |bs[k]|
    ensures Flat(bs[..m]) == Written(bs, k, off) + bs[k][off..] + Flat(bs[k + 1..m])
  {
    assert bs[..m] == bs[..k] + ([bs[k]] + bs[k + 1..m]);
    FlatConcat(bs[..k], [bs[k]] + bs[k + 1..m]);
    FlatConcat([bs[k]], bs[k + 1..m]);
    FlatSingle(bs[k]);
    assert bs[k] == bs[k][..off] + bs[k][off..];
  }

  lemma WrittenLength<T>(bs: seq<seq<T>>, k: nat, off: nat, size: nat)
    requires Uniform(bs, size) && k < |bs| && off <= size
    ensures |Written(bs, k, off)| == k * size + off
  {
    FlatLength(bs[..k], size);
  }

  /** The past of the earlier of two cursors is a prefix of the past of the later one. */
  lemma WrittenOrdered<T>(bs: seq<seq<T>>, k: nat, off: nat, k': nat, off': nat)
    requires k <= k' < |bs| && off <= |bs[k]| && off' <= |bs[k']|
    requires k == k' ==> off <= off'
    ensures Written(bs, k, off) <= Written(bs, k', off')
  {
    if k < k' {
      hide Flat;
      WrittenPrefix(bs, k, off, k');
    } else {
      assert bs[k][..off] <= bs[k][..off'];
    }
  }

  /** The storage from the cursor at `k`, `off` up to the end of block `m - 1`. */
  function Room<T>(bs: seq<seq<T>>, k: nat, off: nat, m: nat): seq<T>
    requires k < m <= |bs| && off <= |bs[k]|
  {
    bs[k][off..] + Flat(bs[k + 1..m])
  }

  /** A cursor splits the storage into its past and its room. */
  lemma WrittenRoom<T>(bs: seq<seq<T>>, k: nat, off: nat, m: nat)
    requires k < m <= |bs| && off <= |bs[k]|
    ensures Flat(bs) == Written(bs, k, off) + Room(bs, k, off, m) + Flat(bs[m..])
  {
    hide Written, Flat;
    WrittenPrefix(bs, k, off, m);
    assert bs == bs[..m] + bs[m..];
    FlatConcat(bs[..m], bs[m..]);
  }

  /** The past of a cursor, read off the whole storage. */
  lemma WrittenFlat<T>(bs: seq<seq<T>>, k: nat, off: nat, size: nat)
    requires Uniform(bs, size) && k < |bs| && off <= size
    ensures k * size + off <= |Flat(bs)|
    ensures Written(bs, k, off) == Flat(bs)[..k * size + off]
  {
    hide Written, Flat;
    WrittenRoom(bs, k, off, |bs|);
    WrittenLength(bs, k, off, size);
  }

  // ---------------------------------------------------------------- between two cursors

  /** `s` lies between offset `start` of the first block and the cursor at `k`, `off`. */
  ghost predicate Between(bs: seq<seq<Byte>>, k: nat, off: nat, start: nat, s: seq<Byte>) {
    && k < |bs| && off <= |bs[k]|
    && var past := Written(bs, k, off);
       start <= |past| && s == past[start..]
  }

  lemma BetweenRest(bs: seq<seq<Byte>>, k: nat, off: nat, start: nat, s: seq<Byte>)
    requires Between(bs, k, off, start, s) && k + 1 < |bs|
    ensures off <= |bs[k]| && Between(bs, k + 1, 0, start, s + bs[k][off..])
  {
    BetweenStep(bs, k, off, start, s, |bs[k]| - off);
    assert bs[k][off..off + (|bs[k]| - off)] == bs[k][off..];
    BetweenNext(bs, k, start, s + bs[k][off..]);
  }

  lemma FlatLonger(bs: seq<seq<Byte>>, bs': seq<seq<Byte>>, i: nat, j: nat)
    requires bs <= bs' && i <= j <= |Flat(bs)|
    ensures j <= |Flat(bs')| && Flat(bs')[i..j] == Flat(bs)[i..j]
  {
    hide Flat;
    assert bs' == bs + bs'[|bs|..];
    FlatConcat(bs, bs'[|bs|..]);
  }

  lemma BetweenStart(bs: seq<seq<Byte>>, off: nat)
    requires |bs| > 0 && off <= |bs[0]|
    ensures Between(bs, 0, off, off, [])
  {
  }

  lemma BetweenUnique(bs: seq<seq<Byte>>, k: nat, off: nat, start: nat, s: seq<Byte>, s': seq<Byte>)
    requires Between(bs, k, off, start, s) && Between(bs, k, off, start, s')
    ensures s == s'
  {
  }

  lemma BetweenStep(bs: seq<seq<Byte>>, k: nat, off: nat, start: nat, s: seq<Byte>, n: nat)
    requires Between(bs, k, off, start, s) && off + n <= |bs[k]|
    ensures Between(bs, k, off + n, start, s + bs[k][off..off + n])
  {
    assert bs[k][..off + n] == bs[k][..off] + bs[k][off..off + n];
  }

  lemma BetweenTail(bs: seq<seq<Byte>>, k: nat, off: nat, start: nat, s: seq<Byte>)
    requires Between(bs, k, off, start, s) && 0 < k && start <= |bs[0]|
    ensures |bs[0]| - start <= |s|
    ensures Between(bs[1..], k - 1, off, 0, s[|bs[0]| - start..])
  {
    WrittenTail(bs, k, off);
  }

  /** Blocks behind the cursor's block do not matter. */
  lemma BetweenSame(bs: seq<seq<Byte>>, bs': seq<seq<Byte>>, k: nat, off: nat, start: nat, s: seq<Byte>)
    requires Between(bs, k, off, start, s) && k < |bs'| && bs'[..k + 1] == bs[..k + 1]
    ensures Between(bs', k, off, start, s)
  {
    assert bs'[..k] == bs'[..k + 1][..k] == bs[..k];
    assert bs'[k] == bs'[..k + 1][k] == bs[k];
  }

  lemma BetweenDrop(bs: seq<seq<Byte>>, k: nat, off: nat, start: nat, s: seq<Byte>, n: nat)
    requires Between(bs, k, off, start, s) && n <= |s|
    ensures Between(bs, k, off, start + n, s[n..])
  {
  }

  /** Only the blocks from the one where the stretch starts up to the cursor's matter, and not
      where in the list they stand. */
  lemma BetweenMoved(bs: seq<seq<Byte>>, bs': seq<seq<Byte>>, j: nat, j': nat, n: nat, off: nat, start: nat,
      s: seq<Byte>, size: nat)
    requires Uniform(bs, size) && Uniform(bs', size) && j + n < |bs| && j' + n < |bs'| && off <= size
    requires bs'[j'..j' + n + 1] == bs[j..j + n + 1]
    requires Between(bs, j + n, off, j * size + start, s)
    ensures Between(bs', j' + n, off, j' * size + start, s)
  {
    WrittenFrom(bs, j, n, off, size);
    WrittenFrom(bs', j', n, off, size);
    assert s == Written(bs[j..j + n + 1], n, off)[start..];
  }

  /** The past of a cursor from the start of block `j` on. */
  lemma WrittenFrom<T>(bs: seq<seq<T>>, j: nat, n: nat, off: nat, size: nat)
    requires Uniform(bs, size) && j + n < |bs| && off <= size
    ensures |Written(bs, j + n, off)| >= j * size
    ensures Written(bs, j + n, off)[j * size..] == Written(bs[j..j + n + 1], n, off)
  {
    assert bs[..j + n] == bs[..j] + bs[j..j + n];
    FlatConcat(bs[..j], bs[j..j + n]);
    FlatLength(bs[..j], size);
    assert bs[j..j + n + 1][..n] == bs[j..j + n];
  }

  /** Overwriting a byte before the cursor overwrites it in the cursor's past. */
  lemma WrittenSet<T>(bs: seq<seq<T>>, j: nat, o: nat, x: T, k: nat, off: nat, size: nat)
    requires Uniform(bs, size) && j <= k < |bs| && o < size && off <= size && (j == k ==> o < off)
    ensures j * size + o < |Written(bs, k, off)|
    ensures Written(bs[j := bs[j][o := x]], k, off) == Written(bs, k, off)[j * size + o := x]
  {
    hide Flat;
    var bs' := bs[j := bs[j][o := x]];
    FlatLength(bs[..j], size);
    if j < k {
      WrittenPrefix(bs, j, o, k);
      WrittenPrefix(bs', j, o, k);
      WrittenLength(bs, j, o, size);
      assert bs'[..j] == bs[..j] && bs'[j + 1..k] == bs[j + 1..k] && bs'[j][..o] == bs[j][..o];
      assert bs'[j][o..] == bs[j][o..][0 := x];
    } else {
      assert bs'[..k] == bs[..k];
    }
  }

  lemma BetweenSet(bs: seq<seq<Byte>>, j: nat, o: nat, x: Byte, k: nat, off: nat, start: nat, s: seq<Byte>, size: nat)
    requires Uniform(bs, size) && j <= k < |bs| && o < size && off <= size && (j == k ==> o < off)
    requires start <= j * size + o && Between(bs, k, off, start, s)
    ensures j * size + o - start < |s|
    ensures Between(bs[j := bs[j][o := x]], k, off, start, s[j * size + o - start := x])
  {
    hide Written;
    WrittenSet(bs, j, o, x, k, off, size);
  }

  /** The bytes in front of the stretch belong to the cursor's past as well. */
  lemma BetweenEarlierStart(bs: seq<seq<Byte>>, k: nat, off: nat, start: nat, s: seq<Byte>,
      n: nat) returns (front: seq<Byte>)
    requires Between(bs, k, off, start, s) && n <= start
    ensures |front| == n && Between(bs, k, off, start - n, front + s)
  {
    front := Written(bs, k, off)[start - n..start];
  }

  lemma BetweenTake(bs: seq<seq<Byte>>, m: nat, k: nat, off: nat, start: nat, s: seq<Byte>)
    requires Between(bs, k, off, start, s) && k < m <= |bs|
    ensures Between(bs[..m], k, off, start, s)
  {
    assert bs[..m][..k + 1] == bs[..k + 1];
    BetweenSame(bs, bs[..m], k, off, start, s);
  }

  /** Copying `data` at the cursor and moving the cursor behind it. */
  lemma BetweenPut(bs: seq<seq<Byte>>, bs': seq<seq<Byte>>, k: nat, off: nat, start: nat, s: seq<Byte>, data: seq<Byte>)
    requires Between(bs, k, off, start, s) && off + |data| <= |bs[k]|
    requires bs' == bs[k := bs[k][..off] + data + bs[k][off + |data|..]]
    ensures Between(bs', k, off + |data|, start, s + data)
  {
    WrittenPut(bs, bs', k, off, data);
  }

  lemma BetweenGrown(bs: seq<seq<Byte>>, bs': seq<seq<Byte>>, k: nat, off: nat, start: nat, s: seq<Byte>)
    requires Between(bs, k, off, start, s) && bs <= bs'
    ensures Between(bs', k, off, start, s)
  {
    assert bs'[..k + 1] == bs[..k + 1];
    BetweenSame(bs, bs', k, off, start, s);
  }

  lemma BetweenNext(bs: seq<seq<Byte>>, k: nat, start: nat, s: seq<Byte>)
    requires k + 1 < |bs| && Between(bs, k, |bs[k]|, start, s)
    ensures Between(bs, k + 1, 0, start, s)
  {
    WrittenNext(bs, k);
  }

  // ---------------------------------------------------------------- block lists in memory

  /** The current contents of the blocks in memory. */
  ghost function Vals(bs: seq<Block>): (vs: seq<seq<Byte>>)
    reads bs
    ensures |vs| == |bs|
    ensures forall i :: 0 <= i < |bs| ==> vs[i] == bs[i][..]
  {
    seq(|bs|, i requires 0 <= i < |bs| reads bs => bs[i][..])
  }

  ghost predicate Distinct(bs: seq<Block>) {
    forall i, j :: 0 <= i < j < |bs| ==> bs[i] != bs[j]
  }

  ghost predicate Sized(bs: seq<Block>, size: nat) {
    forall i :: 0 <= i < |bs| ==> bs[i].Length == size
  }

  ghost predicate Apart(a: seq<Block>, b: seq<Block>) {
    forall i, j :: 0 <= i < |a| && 0 <= j < |b| ==> a[i] != b[j]
  }

  lemma ValsTake(bs: seq<Block>, m: nat)
    requires m <= |bs|
    ensures Vals(bs[..m]) == Vals(bs)[..m]
  {
  }

  lemma SizedUniform(bs: seq<Block>, size: nat)
    requires Sized(bs, size)
    ensures Uniform(Vals(bs), size)
  {
  }

  lemma ListTake(bs: seq<Block>, m: nat, size: nat)
    requires Distinct(bs) && Sized(bs, size) && m <= |bs|
    ensures Distinct(bs[..m]) && Sized(bs[..m], size)
  {
  }

  twostate lemma SameVals(bs: seq<Block>)
    requires forall i :: 0 <= i < |bs| ==> bs[i][..] == old(bs[i][..])
    ensures Vals(bs) == old(Vals(bs))
  {
  }

  /** memcpy into a block. */
  method CopyInto(block: Block, at: nat, data: seq<Byte>)
    requires at + |data| <= block.Length
    modifies block
    ensures block[..] == old(block[..at]) + data + old(block[at + |data|..])
  {
    for i := 0 to |data|
      invariant block[..at] == old(block[..at])
      invariant block[at..at + i] == data[..i]
      invariant block[at + i..] == old(block[at + i..])
    {
      block[at + i] := data[i];
      assert block[at..at + i + 1] == block[at..at + i] + [data[i]];
      assert block[at + i + 1..] == old(block[at + i..])[1..];
    }
    assert block[..] == block[..at] + block[at..at + |data|] + block[at + |data|..];
  }

  // ---------------------------------------------------------------- scatter/gather vectors

  /** One `struct iovec`: `len` bytes of `block` from offset `base` on. */
  datatype IoVec = IoVec(block: Block, base: nat, len: nat)

  ghost predicate WellFormed(vec: seq<IoVec>) {
    forall i :: 0 <= i < |vec| ==> vec[i].base + vec[i].len <= vec[i].block.Length
  }

  ghost predicate Separate(vec: seq<IoVec>) {
    forall i, j :: 0 <= i < j < |vec| ==> vec[i].block != vec[j].block
  }

  ghost function Memory(vec: seq<IoVec>): set<object> {
    set v | v in vec :: v.block
  }

  function Window(v: IoVec): seq<Byte>
    requires v.base + v.len <= v.block.Length
    reads v.block
  {
    v.block[v.base..v.base + v.len]
  }

  /** The bytes of a vector's block that the vector does not cover. */
  ghost function Outside(v: IoVec): (seq<Byte>, seq<Byte>)
    requires v.base + v.len <= v.block.Length
    reads v.block
  {
    (v.block[..v.base], v.block[v.base + v.len..])
  }

  function Total(vec: seq<IoVec>): nat {
    if vec == [] then 0 else vec[0].len + Total(vec[1..])
  }

  /** The bytes the vectors cover, in order: what writev would send. */
  function Gather(vec: seq<IoVec>): (bytes: seq<Byte>)
    requires WellFormed(vec)
    reads Memory(vec)
    ensures |bytes| == Total(vec)
  {
    if vec == [] then [] else
      Window(vec[0]) + Gather(vec[1..])
  }

  lemma {:induction false} TotalConcat(a: seq<IoVec>, b: seq<IoVec>)
    ensures Total(a + b) == Total(a) + Total(b)
  {
    if a == [] {
      assert a + b == b;
    } else {
      TotalConcat(a[1..], b);
      assert (a + b)[1..] == a[1..] + b;
    }
  }

  lemma {:induction false} GatherConcat(a: seq<IoVec>, b: seq<IoVec>)
    requires WellFormed(a) && WellFormed(b)
    ensures WellFormed(a + b) && Gather(a + b) == Gather(a) + Gather(b)
  {
    if a == [] {
      assert a + b == b;
    } else {
      assert (a + b)[0] == a[0] && (a + b)[1..] == a[1..] + b;
      GatherConcat(a[1..], b);
      assert Gather(a + b) == Window(a[0]) + (Gather(a[1..]) + Gather(b));
    }
  }

  /** The vectors cover the blocks from the cursor at `k`, `off` on, to the end of the last. */
  ghost predicate Covers(vec: seq<IoVec>, bs: seq<Block>, k: nat, off: nat, size: nat) {
    && off <= size && k + |vec| <= |bs|
    && forall i :: 0 <= i < |vec| ==>
         vec[i] == IoVec(bs[k + i], if i == 0 then off else 0, if i == 0 then size - off else size)
  }

  lemma CoversSeparate(vec: seq<IoVec>, bs: seq<Block>, k: nat, off: nat, size: nat)
    requires Covers(vec, bs, k, off, size) && Sized(bs, size) && Distinct(bs)
    ensures WellFormed(vec) && Separate(vec)
    ensures forall b :: b in Memory(vec) ==> b in bs[k..k + |vec|]
  {
    forall b | b in Memory(vec) ensures b in bs[k..k + |vec|] {
      var i :| 0 <= i < |vec| && vec[i].block == b;
      assert bs[k..k + |vec|][i] == b;
    }
  }

  /** Covering vectors gather exactly the room in front of the cursor. */
  lemma {:induction false} GatherCovers(vec: seq<IoVec>, bs: seq<Block>, k: nat, off: nat, size: nat)
    requires Covers(vec, bs, k, off, size) && Sized(bs, size) && |vec| > 0
    ensures WellFormed(vec)
    ensures Gather(vec) == Room(Vals(bs), k, off, k + |vec|)
  {
    hide Gather, Total, Room;
    var last, front := vec[|vec| - 1], vec[..|vec| - 1];
    if front == [] {
      assert vec == [last];
      GatherOne(last);
      RoomOne(Vals(bs), k, off);
    } else {
      GatherCovers(front, bs, k, off, size);
      assert vec == front + [last];
      GatherSnoc(front, last);
      RoomSnoc(Vals(bs), k, off, k + |front|);
      assert Window(last) == Vals(bs)[k + |front|];
    }
  }

  lemma {:induction false} TotalCovers(vec: seq<IoVec>, bs: seq<Block>, k: nat, off: nat, size: nat)
    requires Covers(vec, bs, k, off, size) && |vec| > 0
    ensures Total(vec) == |vec| * size - off
  {
    var last, front := vec[|vec| - 1], vec[..|vec| - 1];
    assert vec == front + [last];
    TotalConcat(front, [last]);
    if front != [] {
      TotalCovers(front, bs, k, off, size);
      assert |vec| * size == |front| * size + size;
    }
  }

  lemma GatherOne(v: IoVec)
    requires v.base + v.len <= v.block.Length
    ensures Gather([v]) == Window(v) && Total([v]) == v.len
  {
    assert [v][1..] == [];
  }

  lemma GatherNone()
    ensures Gather([]) == []
  {
  }

  lemma GatherSnoc(vec: seq<IoVec>, v: IoVec)
    requires WellFormed(vec) && v.base + v.len <= v.block.Length
    ensures WellFormed(vec + [v]) && Gather(vec + [v]) == Gather(vec) + Window(v)
    ensures Total(vec + [v]) == Total(vec) + v.len
  {
    hide Gather, Total;
    TotalConcat(vec, [v]);
    GatherConcat(vec, [v]);
    GatherOne(v);
  }

  lemma RoomOne<T>(bs: seq<seq<T>>, k: nat, off: nat)
    requires k < |bs| && off <= |bs[k]|
    ensures Room(bs, k, off, k + 1) == bs[k][off..]
  {
    assert bs[k + 1..k + 1] == [];
  }

  lemma RoomSnoc<T>(bs: seq<seq<T>>, k: nat, off: nat, m: nat)
    requires k < m < |bs| && off <= |bs[k]|
    ensures Room(bs, k, off, m + 1) == Room(bs, k, off, m) + bs[m]
  {
    assert bs[k + 1..m + 1] == bs[k + 1..m] + [bs[m]];
    FlatConcat(bs[k + 1..m], [bs[m]]);
    FlatSingle(bs[m]);
  }

  /** `bytes` laid over the front of `room`. */
  function Overlay(room: seq<Byte>, bytes: seq<Byte>): seq<Byte>
    requires |bytes| <= |room|
  {
    bytes + room[|bytes|..]
  }

  lemma OverlaySplit(a: seq<Byte>, b: seq<Byte>, bytes: seq<Byte>)
    requires |bytes| <= |a| + |b|
    ensures |bytes| <= |a| ==> Overlay(a + b, bytes) == Overlay(a, bytes) + b
    ensures |bytes| >= |a| ==> Overlay(a + b, bytes) == bytes[..|a|] + Overlay(b, bytes[|a|..])
  {
  }

  lemma OverlayAll(a: seq<Byte>, bytes: seq<Byte>)
    requires |bytes| == |a|
    ensures Overlay(a, bytes) == bytes
  {
  }

  method ReadInto(v: IoVec, bytes: seq<Byte>)
    requires v.base + v.len <= v.block.Length && |bytes| <= v.len
    modifies v.block
    ensures Window(v) == Overlay(old(Window(v)), bytes)
    ensures Outside(v) == old(Outside(v))
  {
    CopyInto(v.block, v.base, bytes);
    assert v.block[..v.base] == old(v.block[..v.base]);
    assert v.block[v.base + v.len..] == old(v.block[v.base + v.len..]);
  }

  /** readv(2): the kernel fills the vectors in order and leaves every other byte alone. */
  method Readv(vec: seq<IoVec>, bytes: seq<Byte>)
    requires WellFormed(vec) && Separate(vec) && |bytes| <= Total(vec)
    modifies Memory(vec)
    ensures Gather(vec) == Overlay(old(Gather(vec)), bytes)
    ensures forall i :: 0 <= i < |vec| ==> Outside(vec[i]) == old(Outside(vec[i]))
  {
    if vec != [] {
      hide Overlay, Total;
      var v, rest := vec[0], vec[1..];
      ghost var window, others := Window(v), Gather(rest);
      OverlaySplit(window, others, bytes);
      assert v.block !in Memory(rest);
      var n := if |bytes| <= v.len then |bytes| else v.len;
      ReadInto(v, bytes[..n]);
      assert Gather(rest) == others;
      assert forall i :: 0 <= i < |rest| ==> Outside(rest[i]) == old(Outside(rest[i]));
      if n == |bytes| {
        assert bytes[..n] == bytes;
      } else {
        OverlayAll(window, bytes[..n]);
        label first:
        Readv(rest, bytes[n..]);
        assert Window(v) == old@first(Window(v)) && Outside(v) == old@first(Outside(v));
      }
      assert forall i :: 0 < i < |vec| ==> vec[i] == rest[i - 1];
    }
  }

  /** Blocks outside the vectors keep their contents. */
  method ReadvApart(vec: seq<IoVec>, bytes: seq<Byte>, ghost others: seq<Block>)
    requires WellFormed(vec) && Separate(vec) && |bytes| <= Total(vec)
    requires forall i, j :: 0 <= i < |others| && 0 <= j < |vec| ==> others[i] != vec[j].block
    modifies Memory(vec)
    ensures Gather(vec) == Overlay(old(Gather(vec)), bytes)
    ensures forall i :: 0 <= i < |vec| ==> Outside(vec[i]) == old(Outside(vec[i]))
    ensures Vals(others) == old(Vals(others))
  {
    assert forall i :: 0 <= i < |others| ==> others[i] !in Memory(vec);
    Readv(vec, bytes);
    SameVals(others);
  }

  lemma OverlayParts(a: seq<Byte>, e: seq<Byte>, a': seq<Byte>, e': seq<Byte>, bytes: seq<Byte>)
    requires |bytes| <= |a| + |e| && |a'| == |a| && |e'| == |e|
    requires a' + e' == Overlay(a + e, bytes)
    ensures |bytes| <= |a| ==> bytes <= a'
    ensures |bytes| >= |a| ==> bytes[..|a|] == a' && bytes[|a|..] <= e'
  {
    assert a' == (a' + e')[..|a|] && e' == (a' + e')[|a|..];
  }

  /** readv into the room in front of a cursor, with an overflow area at the end. */
  method ReadBlocks(vec: seq<IoVec>, bs: seq<Block>, k: nat, off: nat, size: nat, extra: Block, bytes: seq<Byte>)
    requires Sized(bs, size) && Distinct(bs) && extra !in bs && vec != []
    requires Covers(vec, bs, k, off, size)
    requires |bytes| <= Total(vec) + extra.Length
    modifies bs, extra
    ensures Vals(bs)[..k] == old(Vals(bs)[..k]) && bs[k][..off] == old(bs[k][..off])
    ensures |bytes| <= Total(vec) ==> bytes <= Room(Vals(bs), k, off, k + |vec|)
    ensures |bytes| >= Total(vec) ==>
      && bytes[..Total(vec)] == Room(Vals(bs), k, off, k + |vec|)
      && bytes[Total(vec)..] <= extra[..]
  {
    hide Flat, Gather, Total, Overlay, Room;
    var last := IoVec(extra, 0, extra.Length);
    ghost var others := bs[..k];
    CoversSeparate(vec, bs, k, off, size);
    GatherCovers(vec, bs, k, off, size);
    TotalConcat(vec, [last]);
    GatherConcat(vec, [last]);
    GatherOne(last);
    ghost var before := (Gather(vec), Gather([last]));
    ReadvApart(vec + [last], bytes, others);
    GatherCovers(vec, bs, k, off, size);
    GatherConcat(vec, [last]);
    GatherOne(last);
    OverlayParts(before.0, before.1, Gather(vec), Gather([last]), bytes);
    assert Outside((vec + [last])[0]) == old(Outside((vec + [last])[0]));
    assert Vals(bs)[..k] == Vals(others);
  }
}
