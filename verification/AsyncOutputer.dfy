/** The asynchronous log: producers fill buffers under a lock, one writer thread swaps them
    out and writes them. Every lock section and every step of the writer between lock
    sections is one step; a schedule interleaves them in any order. */
module AsyncOutputers {
  import opened FixedBuffers

  const SMALL_SIZE: nat := 4096
  const LARGE_SIZE: nat := 4096 * 1000
  const MAX_BATCH: nat := 25

  /** A unique_ptr to a large buffer. The buffer has no other owner, so the pointer is
      modelled by the contents of what it owns; a moved-from pointer is null. */
  datatype BufferPtr = Null | Ptr(contents: seq<char>)

  /** A log record: a small buffer keeps one byte free, so a record is shorter than it. */
  type Message = m: seq<char> | |m| < SMALL_SIZE

  predicate Sound(p: BufferPtr) { p.Ptr? && |p.contents| < LARGE_SIZE }

  const EMPTY: BufferPtr := Ptr([])

  function GetAvail(p: BufferPtr): nat
    requires Sound(p)
  {
    LARGE_SIZE - |p.contents| - 1
  }

  function Append(p: BufferPtr, msg: seq<char>): (r: BufferPtr)
    requires Sound(p)
    ensures Sound(r)
  {
    Ptr(p.contents + Fitting(msg, GetAvail(p)))
  }

  function Bytes(p: BufferPtr): seq<char> {
    if p.Ptr? then p.contents else []
  }

  /** The contents of a list of buffers, one after the other. */
  function Cat(ps: seq<BufferPtr>): seq<char> {
    if ps == [] then [] else Cat(ps[..|ps| - 1]) + Bytes(ps[|ps| - 1])
  }

  lemma CatNone()
    ensures Cat([]) == []
  {
  }

  lemma CatSnoc(ps: seq<BufferPtr>, p: BufferPtr)
    ensures Cat(ps + [p]) == Cat(ps) + Bytes(p)
  {
    assert (ps + [p])[..|ps|] == ps;
  }

  lemma {:induction false} CatSplit(ps: seq<BufferPtr>, k: nat)
    requires k <= |ps|
    ensures Cat(ps) == Cat(ps[..k]) + Cat(ps[k..])
  {
    hide Cat;
    if k == |ps| {
      assert ps[..k] == ps && ps[k..] == [];
      CatNone();
    } else {
      var front, p := ps[..|ps| - 1], ps[|ps| - 1];
      CatSplit(front, k);
      CatSnoc(front, p);
      CatSnoc(front[k..], p);
      assert ps == front + [p] && front[..k] == ps[..k] && ps[k..] == front[k..] + [p];
    }
  }

  // ---------------------------------------------------------------- the protocol

  /** Where the writer thread stands in Run. */
  datatype Pc =
    | AtTop          // evaluates the loop condition
    | AtFlag         // about to copy running_ into last_write
    | AtLock         // about to lock
    | Waiting        // inside the timed wait, the lock is released
    | Swapped        // has unlocked, with a batch
    | Writing        // the batch is cut down, `written` buffers of it are in the file
    | Returned

  datatype Action = Output(msg: Message) | Flush | Stop | Writer

  datatype State = State(
    // shared
    running: bool,
    currentBuffer: BufferPtr,
    nextBuffer: BufferPtr,
    buffers: seq<BufferPtr>,
    // the writer's own
    pc: Pc,
    lastWrite: bool,
    newBuffer1: BufferPtr,
    newBuffer2: BufferPtr,
    buffersToWrite: seq<BufferPtr>,
    written: nat,
    logFile: seq<char>,
    // history
    all: seq<char>,                   // every message output so far, in lock order
    batches: seq<seq<BufferPtr>>,     // what the writer has swapped out, batch by batch
    before: seq<char>                 // what had been output when running_ was cleared
  )

  /** After Start: the writer thread has set itself up. */
  predicate Initial(s: State) {
    && s.running && s.lastWrite && s.pc == AtTop
    && s.currentBuffer == s.nextBuffer == s.newBuffer1 == s.newBuffer2 == EMPTY
    && s.buffers == s.buffersToWrite == [] && s.batches == [] && s.written == 0
    && s.logFile == s.all == s.before == []
  }

  predicate HasBatch(s: State) {
    s.pc == Swapped || s.pc == Writing
  }

  /** No pointer is null where it is used, and spare buffers are empty. */
  ghost predicate Recycling(s: State) {
    && Sound(s.currentBuffer)
    && (s.nextBuffer == Null || s.nextBuffer == EMPTY)
    && (s.nextBuffer == Null ==> s.buffers != [])
    && s.written <= |s.buffersToWrite|
    && (!HasBatch(s) ==> s.newBuffer1 == s.newBuffer2 == EMPTY && s.buffersToWrite == [])
    && (HasBatch(s) ==>
          && s.newBuffer1 == Null && s.buffersToWrite != []
          && (s.newBuffer2 == EMPTY || (s.newBuffer2 == Null && |s.buffersToWrite| >= 2)))
    && (s.pc != Writing ==> s.written == 0)
  }

  /** Queues the current buffer and puts the spare one, or a new one, in its place. */
  function Exchanged(s: State): State {
    s.(buffers := s.buffers + [s.currentBuffer],
       currentBuffer := if s.nextBuffer != Null then s.nextBuffer else EMPTY,
       nextBuffer := Null)
  }

  /** The lock section of Run, after the wait: everything queued becomes the batch. */
  function SwappedOut(s: State): State {
    var batch := s.buffers + [s.currentBuffer];
    s.(buffers := [], currentBuffer := s.newBuffer1, newBuffer1 := Null, buffersToWrite := batch,
       nextBuffer := if s.nextBuffer == Null then s.newBuffer2 else s.nextBuffer,
       newBuffer2 := if s.nextBuffer == Null then Null else s.newBuffer2,
       pc := Swapped, batches := s.batches + [batch])
  }

  /** A batch of more than 25 buffers is cut down to its first two. */
  function KeptPart(batch: seq<BufferPtr>): seq<BufferPtr> {
    if |batch| > MAX_BATCH then batch[..2] else batch
  }

  function DroppedPart(batch: seq<BufferPtr>): seq<BufferPtr> {
    if |batch| > MAX_BATCH then batch[2..] else []
  }

  /** One step of the writer. */
  function WriterNext(s: State): State {
    match s.pc
    case AtTop => s.(pc := if s.running || s.lastWrite then AtFlag else Returned)
    case AtFlag => s.(lastWrite := s.running, pc := AtLock)
    case AtLock => if s.buffers == [] then s.(pc := Waiting) else SwappedOut(s)
    case Waiting => SwappedOut(s)
    case Swapped => s.(buffersToWrite := KeptPart(s.buffersToWrite), pc := Writing)
    case Writing =>
      if s.written < |s.buffersToWrite| then
        s.(logFile := s.logFile + Bytes(s.buffersToWrite[s.written]), written := s.written + 1)
      else s.(newBuffer1 := EMPTY, newBuffer2 := EMPTY, buffersToWrite := [], written := 0, pc := AtTop)
    case Returned => s
  }

  function Next(s: State, action: Action): State
    requires Sound(s.currentBuffer) && (s.nextBuffer == Null || s.nextBuffer == EMPTY)
  {
    match action
    case Output(msg) =>
      var t := if |msg| > GetAvail(s.currentBuffer) then Exchanged(s) else s;
      t.(currentBuffer := Append(t.currentBuffer, msg), all := t.all + msg)
    case Flush => Exchanged(s)
    case Stop => s.(running := false, before := if s.running then s.all else s.before)
    case Writer => WriterNext(s)
  }

  // ---------------------------------------------------------------- what every step keeps

  /** All that was swapped out, batch by batch. */
  function CatAll(batches: seq<seq<BufferPtr>>): seq<char> {
    if batches == [] then [] else CatAll(batches[..|batches| - 1]) + Cat(batches[|batches| - 1])
  }

  /** What is kept of it: all of it but the dropped parts, in order. */
  function CatKept(batches: seq<seq<BufferPtr>>): seq<char> {
    if batches == [] then [] else CatKept(batches[..|batches| - 1]) + Cat(KeptPart(batches[|batches| - 1]))
  }

  lemma CatAllSnoc(batches: seq<seq<BufferPtr>>, batch: seq<BufferPtr>)
    ensures CatAll(batches + [batch]) == CatAll(batches) + Cat(batch)
    ensures CatKept(batches + [batch]) == CatKept(batches) + Cat(KeptPart(batch))
  {
    assert (batches + [batch])[..|batches|] == batches;
  }

  /** The batches that have been cut down, where that was due. */
  function Cut(s: State): seq<seq<BufferPtr>> {
    if s.pc == Swapped && s.batches != [] then s.batches[..|s.batches| - 1] else s.batches
  }

  /** The part of the batch that is not in the file yet. */
  function Unwritten(s: State): seq<char>
    requires s.written <= |s.buffersToWrite|
  {
    Cat(s.buffersToWrite[s.written..])
  }

  /** What is queued or in the current buffer. */
  function Queued(s: State): seq<char> {
    Cat(s.buffers) + Bytes(s.currentBuffer)
  }

  /** Every byte output was swapped out or is queued, and the file has what was kept of it. */
  ghost predicate Conserved(s: State)
    requires s.written <= |s.buffersToWrite|
  {
    && s.all == CatAll(s.batches) + Queued(s)
    && (s.pc == Swapped ==> s.batches != [] && s.buffersToWrite == s.batches[|s.batches| - 1] && s.logFile == CatKept(Cut(s)))
    && (s.pc != Swapped ==> s.logFile + Unwritten(s) == CatKept(s.batches))
  }

  /** After the last swap everything output before Stop has been swapped out. */
  ghost predicate Sweeping(s: State) {
    && (!s.running ==> s.before <= s.all)
    && (!s.lastWrite ==> !s.running)
    && (!s.lastWrite && (HasBatch(s) || s.pc == AtTop || s.pc == Returned) ==> s.before <= CatAll(s.batches))
    && (s.pc == Returned ==> !s.lastWrite)
  }

  ghost predicate Inv(s: State) {
    Recycling(s) && Conserved(s) && Sweeping(s)
  }

  lemma InitInv(s: State)
    requires Initial(s)
    ensures Inv(s)
  {
  }

  lemma {:induction false} ExchangedInv(s: State)
    requires Inv(s)
    ensures Inv(Exchanged(s)) && Queued(Exchanged(s)) == Queued(s) && Exchanged(s).currentBuffer == EMPTY
  {
    hide Cat, CatAll, CatKept;
    CatSnoc(s.buffers, s.currentBuffer);
  }

  lemma {:induction false} AppendInv(s: State, msg: Message)
    requires Inv(s) && |msg| <= GetAvail(s.currentBuffer)
    ensures Inv(s.(currentBuffer := Append(s.currentBuffer, msg), all := s.all + msg))
  {
    hide Cat, CatAll, CatKept;
    var t := s.(currentBuffer := Append(s.currentBuffer, msg), all := s.all + msg);
    assert Unwritten(t) == Unwritten(s) && Cut(t) == Cut(s);
    QueuedMore(CatAll(s.batches), Cat(s.buffers), s.currentBuffer.contents, msg);
    assert s.before <= s.all ==> s.before <= t.all;
  }

  lemma QueuedMore(swapped: seq<char>, queued: seq<char>, current: seq<char>, msg: seq<char>)
    ensures swapped + (queued + (current + msg)) == swapped + (queued + current) + msg
  {
  }

  /** The message is never cut: either it fits or the buffer is a fresh one. */
  lemma {:induction false} OutputInv(s: State, msg: Message)
    requires Inv(s)
    ensures Inv(Next(s, Output(msg)))
    ensures Next(s, Output(msg)).all == s.all + msg
  {
    hide Conserved, Sweeping, Queued;
    if |msg| > GetAvail(s.currentBuffer) {
      ExchangedInv(s);
      AppendInv(Exchanged(s), msg);
    } else {
      AppendInv(s, msg);
    }
  }

  lemma {:induction false} SwappedInv(s: State)
    requires Inv(s) && (s.pc == AtLock || s.pc == Waiting)
    ensures Inv(SwappedOut(s)) && Cat(SwappedOut(s).buffersToWrite) == Queued(s)
  {
    hide Cat, CatAll, CatKept;
    CatNone();
    var batch := s.buffers + [s.currentBuffer];
    CatSnoc(s.buffers, s.currentBuffer);
    CatAllSnoc(s.batches, batch);
    assert s.buffersToWrite[0..] == [];
    var t := SwappedOut(s);
    assert t.batches[..|t.batches| - 1] == s.batches;
    assert Queued(t) == [];
  }

  /** Where bytes are dropped: exactly those behind the second buffer of a batch that is too
      long. The rest of the batch is written. */
  lemma {:induction false} DroppedInv(s: State)
    requires Inv(s) && s.pc == Swapped
    ensures Inv(WriterNext(s))
    ensures Cat(s.buffersToWrite) == Cat(KeptPart(s.buffersToWrite)) + Cat(DroppedPart(s.buffersToWrite))
  {
    hide Cat, CatAll, CatKept;
    CatNone();
    var n := |s.batches| - 1;
    assert s.batches == s.batches[..n] + [s.batches[n]];
    CatAllSnoc(s.batches[..n], s.batches[n]);
    var t := WriterNext(s);
    assert t.buffersToWrite[0..] == t.buffersToWrite;
    if |s.buffersToWrite| > MAX_BATCH {
      CatSplit(s.buffersToWrite, 2);
    }
  }

  lemma {:induction false} WriteInv(s: State)
    requires Inv(s) && s.pc == Writing
    ensures Inv(WriterNext(s)) && WriterNext(s).logFile + Unwritten(WriterNext(s)) == s.logFile + Unwritten(s)
  {
    hide Cat, CatAll, CatKept;
    CatNone();
    if s.written < |s.buffersToWrite| {
      var rest := s.buffersToWrite[s.written..];
      CatSplit(rest, 1);
      CatSnoc([], rest[0]);
      assert rest[..1] == [] + [rest[0]] && rest[1..] == s.buffersToWrite[s.written + 1..];
      assert s.logFile + (Bytes(rest[0]) + Cat(rest[1..])) == s.logFile + Bytes(rest[0]) + Cat(rest[1..]);
    } else {
      assert s.buffersToWrite[s.written..] == [];
    }
  }

  lemma {:induction false} NextInv(s: State, action: Action)
    requires Inv(s)
    ensures Inv(Next(s, action))
    ensures Next(s, action).all == s.all + if action.Output? then action.msg else []
    ensures s.logFile <= Next(s, action).logFile && s.batches <= Next(s, action).batches
  {
    hide Conserved, Sweeping, Queued, Unwritten;
    match action
    case Output(msg) => OutputInv(s, msg);
    case Flush => ExchangedInv(s);
    case Stop => StopInv(s);
    case Writer => WriterInv(s);
  }

  lemma {:induction false} StopInv(s: State)
    requires Inv(s)
    ensures Inv(Next(s, Stop))
  {
    hide Cat, CatAll, CatKept;
  }

  lemma {:induction false} WriterInv(s: State)
    requires Inv(s)
    ensures Inv(WriterNext(s))
    ensures WriterNext(s).all == s.all && s.logFile <= WriterNext(s).logFile && s.batches <= WriterNext(s).batches
  {
    hide Conserved, Sweeping, Queued, Unwritten;
    match s.pc {
      case Swapped => DroppedInv(s);
      case Writing => WriteInv(s);
      case AtLock => if s.buffers != [] { SwappedInv(s); } else { MoveInv(s); }
      case Waiting => SwappedInv(s);
      case _ => MoveInv(s);
    }
  }

  /** Steps that only move the writer on. */
  lemma {:induction false} MoveInv(s: State)
    requires Inv(s) && (s.pc == AtTop || s.pc == AtFlag || (s.pc == AtLock && s.buffers == []) || s.pc == Returned)
    ensures Inv(WriterNext(s))
  {
    hide Cat, CatAll, CatKept;
  }

  // ---------------------------------------------------------------- whole runs

  /** Any interleaving of producers, Stop and the writer. */
  ghost function Exec(s: State, schedule: seq<Action>): (t: State)
    requires Inv(s)
    ensures Inv(t)
    decreases |schedule|
  {
    if schedule == [] then s else
      NextInv(s, schedule[0]);
      Exec(Next(s, schedule[0]), schedule[1..])
  }

  /** The messages that a schedule outputs, in the order in which the lock is taken. */
  function Messages(schedule: seq<Action>): seq<char> {
    if schedule == [] then [] else (if schedule[0].Output? then schedule[0].msg else []) + Messages(schedule[1..])
  }

  lemma {:induction false} AllMessages(s: State, schedule: seq<Action>)
    requires Inv(s)
    ensures Exec(s, schedule).all == s.all + Messages(schedule)
    decreases |schedule|
  {
    hide Conserved, Sweeping, Next;
    if schedule != [] {
      NextInv(s, schedule[0]);
      AllMessages(Next(s, schedule[0]), schedule[1..]);
    }
  }

  /** All bytes that are somewhere between the producers and the disk, in order. */
  ghost function Held(s: State): seq<char>
    requires s.written <= |s.buffersToWrite|
  {
    s.logFile + Unwritten(s) + Queued(s)
  }

  /** A batch was cut down although there were bytes behind its second buffer. */
  predicate Loses(batch: seq<BufferPtr>) {
    |batch| > MAX_BATCH && Cat(batch[2..]) != []
  }

  /** The batch that waits to be cut down or is not there, then the queue. */
  ghost function Rest(s: State): seq<char> {
    (if s.pc == Swapped then Cat(s.buffersToWrite) else []) + Queued(s)
  }

  lemma {:induction false} HeldIs(s: State)
    requires Inv(s)
    ensures Held(s) == CatKept(Cut(s)) + Rest(s) && s.all == CatAll(Cut(s)) + Rest(s)
  {
    hide Cat, CatAll, CatKept;
    if s.pc == Swapped {
      var n := |s.batches| - 1;
      assert s.batches == s.batches[..n] + [s.batches[n]];
      CatAllSnoc(s.batches[..n], s.batches[n]);
      assert s.buffersToWrite[0..] == s.buffersToWrite;
    }
  }

  lemma {:induction false} KeptOne(batch: seq<BufferPtr>)
    ensures if Loses(batch) then |Cat(KeptPart(batch))| < |Cat(batch)| else Cat(KeptPart(batch)) == Cat(batch)
  {
    hide Cat;
    if |batch| > MAX_BATCH {
      CatSplit(batch, 2);
    }
  }

  ghost predicate NoLoss(batches: seq<seq<BufferPtr>>) {
    forall i :: 0 <= i < |batches| ==> !Loses(batches[i])
  }

  lemma {:induction false} KeptLength(batches: seq<seq<BufferPtr>>)
    ensures |CatKept(batches)| <= |CatAll(batches)|
    ensures if NoLoss(batches) then CatKept(batches) == CatAll(batches) else |CatKept(batches)| < |CatAll(batches)|
  {
    hide Cat, Loses, KeptPart;
    if batches != [] {
      var n := |batches| - 1;
      KeptLength(batches[..n]);
      KeptOne(batches[n]);
      assert NoLoss(batches) <==> NoLoss(batches[..n]) && !Loses(batches[n]) by {
        assert forall i :: 0 <= i < n ==> batches[..n][i] == batches[i];
      }
    }
  }

  /** In every interleaving: the file, the batch, the queue and the current buffer hold what was
      output, in lock order, less exactly the parts that were dropped from batches too long. */
  lemma {:induction false} HeldInEveryRun(init: State, schedule: seq<Action>)
    requires Initial(init)
    ensures Inv(init)
    ensures var s := Exec(init, schedule);
      && Messages(schedule) == CatAll(Cut(s)) + Rest(s)
      && Held(s) == CatKept(Cut(s)) + Rest(s)
  {
    InitInv(init);
    hide Exec, Messages, Inv;
    AllMessages(init, schedule);
    HeldIs(Exec(init, schedule));
  }

  /** Nothing is lost, cut or reordered if and only if no batch of more than 25 buffers with
      bytes behind its second one was cut down. */
  lemma {:induction false} AllHeldIff(init: State, schedule: seq<Action>)
    requires Initial(init)
    ensures Inv(init)
    ensures var s := Exec(init, schedule);
      Held(s) == Messages(schedule) <==> NoLoss(Cut(s))
  {
    HeldInEveryRun(init, schedule);
    hide Exec, Messages, Inv, NoLoss, CatAll, CatKept, Rest, Held, Cut;
    KeptLength(Cut(Exec(init, schedule)));
  }

  /** When Run has returned, everything output before Stop has been swapped out and the file has
      it, less the dropped parts. */
  lemma {:induction false} ReturnedSweeps(init: State, schedule: seq<Action>)
    requires Initial(init)
    ensures Inv(init)
    ensures var s := Exec(init, schedule); s.pc == Returned ==>
      && !s.running && s.before <= CatAll(s.batches) && s.logFile == CatKept(s.batches)
      && (NoLoss(s.batches) ==> s.before <= s.logFile)
  {
    InitInv(init);
    hide Exec, NoLoss, CatAll, CatKept;
    CatNone();
    var s := Exec(init, schedule);
    KeptLength(s.batches);
    assert s.pc == Returned ==> s.buffersToWrite[s.written..] == [];
  }

  // ---------------------------------------------------------------- how buffers fill up

  /** What a queued buffer holds at least, unless a Flush queued it: the next record did not fit. */
  const FULL: nat := 4096 * 1000 - 4096

  /** How many of these buffers are not full. */
  function Short(ps: seq<BufferPtr>): nat {
    if ps == [] then 0 else Short(ps[..|ps| - 1]) + if |Bytes(ps[|ps| - 1])| > FULL then 0 else 1
  }

  /** The same for batches, but for the last buffer of each, which was current when it was taken. */
  function ShortInBatches(batches: seq<seq<BufferPtr>>): nat {
    if batches == [] then 0 else
      var last := batches[|batches| - 1];
      ShortInBatches(batches[..|batches| - 1]) + if last == [] then 0 else Short(last[..|last| - 1])
  }

  function Shorts(s: State): nat {
    ShortInBatches(s.batches) + Short(s.buffers)
  }

  function CountFlushes(schedule: seq<Action>): nat {
    if schedule == [] then 0 else (if schedule[0].Flush? then 1 else 0) + CountFlushes(schedule[1..])
  }

  lemma ShortSnoc(ps: seq<BufferPtr>, p: BufferPtr)
    ensures Short(ps + [p]) == Short(ps) + if |Bytes(p)| > FULL then 0 else 1
  {
    assert (ps + [p])[..|ps|] == ps;
  }

  lemma ShortTaken(batches: seq<seq<BufferPtr>>, ps: seq<BufferPtr>, p: BufferPtr)
    ensures ShortInBatches(batches + [ps + [p]]) == ShortInBatches(batches) + Short(ps)
  {
    assert (batches + [ps + [p]])[..|batches|] == batches && (ps + [p])[..|ps|] == ps;
  }

  lemma {:induction false} NextShorts(s: State, action: Action)
    requires Inv(s)
    ensures Shorts(Next(s, action)) <= Shorts(s) + if action.Flush? then 1 else 0
  {
    hide Conserved, Sweeping, Short, ShortInBatches;
    assert Short([]) == 0 by { ShortNone(); }
    ShortSnoc(s.buffers, s.currentBuffer);
    ShortTaken(s.batches, s.buffers, s.currentBuffer);
  }

  lemma ShortNone()
    ensures Short([]) == 0
  {
  }

  /** In every run, every buffer of a batch before its last holds more than 4096 * 1000 - 4096
      bytes, except at most one buffer for each Flush. */
  lemma {:induction false} OneShortPerFlush(s: State, schedule: seq<Action>)
    requires Inv(s)
    ensures Shorts(Exec(s, schedule)) <= Shorts(s) + CountFlushes(schedule)
    decreases |schedule|
  {
    hide Conserved, Sweeping, Next, Shorts;
    if schedule != [] {
      NextInv(s, schedule[0]);
      NextShorts(s, schedule[0]);
      OneShortPerFlush(Next(s, schedule[0]), schedule[1..]);
    }
  }

  lemma {:induction false} NoShort(ps: seq<BufferPtr>)
    requires Short(ps) == 0
    ensures forall i :: 0 <= i < |ps| ==> |Bytes(ps[i])| > FULL
    ensures |Cat(ps)| >= |ps| * FULL
  {
    if ps != [] {
      var n := |ps| - 1;
      NoShort(ps[..n]);
      assert forall i :: 0 <= i < n ==> ps[i] == ps[..n][i];
    }
  }

  lemma {:induction false} NoShortBatch(batches: seq<seq<BufferPtr>>, k: nat)
    requires ShortInBatches(batches) == 0 && k < |batches| && batches[k] != []
    ensures Short(batches[k][..|batches[k]| - 1]) == 0
  {
    var n := |batches| - 1;
    if k < n {
      assert batches[..n][k] == batches[k];
      NoShortBatch(batches[..n], k);
    }
  }

  /** What was output between two swaps is not much. */
  ghost predicate Light(batches: seq<seq<BufferPtr>>) {
    forall i :: 0 <= i < |batches| ==> |Cat(batches[i])| < 25 * (4096 * 1000 - 4096)
  }

  lemma {:induction false} LightBatch(batch: seq<BufferPtr>)
    requires batch != [] ==> Short(batch[..|batch| - 1]) == 0
    requires |Cat(batch)| < 25 * (4096 * 1000 - 4096)
    ensures |batch| <= MAX_BATCH
  {
    hide Cat, Short;
    if |batch| > MAX_BATCH {
      var n := |batch| - 1;
      NoShort(batch[..n]);
      CatSplit(batch, n);
      TimesFull(n);
    }
  }

  lemma TimesFull(n: nat)
    requires n >= 25
    ensures n * FULL >= 25 * (4096 * 1000 - 4096)
  {
  }

  /** Without Flush nothing is lost as long as fewer than 25 full buffers are output between two
      swaps: the batches are then short enough. */
  lemma {:induction false} LightLoadsKept(init: State, schedule: seq<Action>)
    requires Initial(init) && CountFlushes(schedule) == 0
    ensures Inv(init)
    ensures var s := Exec(init, schedule);
      && (forall k, j :: 0 <= k < |s.batches| && 0 <= j < |s.batches[k]| - 1 ==> |Bytes(s.batches[k][j])| > 4096 * 1000 - 4096)
      && (Light(Cut(s)) ==> Held(s) == Messages(schedule))
  {
    InitInv(init);
    assert Shorts(init) == 0;
    OneShortPerFlush(init, schedule);
    AllHeldIff(init, schedule);
    hide Inv, Exec, Messages, Held, Short, Loses, Cat;
    var s := Exec(init, schedule);
    forall k | 0 <= k < |s.batches| && s.batches[k] != [] ensures Short(s.batches[k][..|s.batches[k]| - 1]) == 0 {
      NoShortBatch(s.batches, k);
    }
    forall k, j | 0 <= k < |s.batches| && 0 <= j < |s.batches[k]| - 1 ensures |Bytes(s.batches[k][j])| > FULL {
      NoShort(s.batches[k][..|s.batches[k]| - 1]);
      assert s.batches[k][..|s.batches[k]| - 1][j] == s.batches[k][j];
    }
    if Light(Cut(s)) {
      forall k | 0 <= k < |Cut(s)| ensures !Loses(Cut(s)[k]) {
        assert Cut(s)[k] == s.batches[k];
        LightBatch(s.batches[k]);
        ShortBatchSafe(s.batches[k]);
      }
    }
  }

  lemma ShortBatchSafe(batch: seq<BufferPtr>)
    requires |batch| <= MAX_BATCH
    ensures !Loses(batch)
  {
  }

  // ---------------------------------------------------------------- the writer ends

  function Writers(n: nat): seq<Action> {
    seq(n, _ => Writer)
  }

  /** How far the writer is from evaluating the loop's condition, or from the flag after it. */
  function Ahead(s: State): nat {
    match s.pc
    case AtFlag => if s.lastWrite then 0 else 6
    case AtLock => 5
    case Waiting => 4
    case Swapped => 3
    case Writing => 2
    case AtTop => 1
    case Returned => 0
  }

  /** Once the flag is cleared the writer returns, after at most one more sweep: whatever it is
      doing, finitely many steps of its own take it there. */
  lemma {:induction false} WriterReturns(s: State) returns (n: nat)
    requires Inv(s) && !s.running
    ensures Exec(s, Writers(n)).pc == Returned && !Exec(s, Writers(n)).running
    decreases s.lastWrite, Ahead(s), |s.buffersToWrite| - s.written
  {
    hide Conserved, Sweeping;
    if s.pc == Returned {
      n := 0;
      ExecNone(s);
      assert Writers(0) == [];
    } else {
      NextInv(s, Writer);
      var m := WriterReturns(WriterNext(s));
      n := m + 1;
      assert Writers(n) == [Writer] + Writers(m);
      ExecOne(s, Writer, Writers(m));
    }
  }

  // ---------------------------------------------------------------- a schedule that loses a message

  function Flushes(k: nat): seq<Action> {
    seq(k, _ => Flush)
  }

  lemma {:induction false} FlushMany(s: State, k: nat, rest: seq<Action>) returns (t: State)
    requires Inv(s)
    ensures Inv(t) && Exec(s, Flushes(k) + rest) == Exec(t, rest)
    ensures k == 0 ==> t == s
    ensures t == s.(buffers := t.buffers, currentBuffer := t.currentBuffer, nextBuffer := t.nextBuffer)
    ensures s.buffers <= t.buffers && |t.buffers| == |s.buffers| + k
    ensures k > 0 ==> t.currentBuffer == EMPTY && t.buffers[|s.buffers|] == s.currentBuffer
    ensures forall j :: |s.buffers| < j < |t.buffers| ==> t.buffers[j] == EMPTY
    decreases k
  {
    hide Inv;
    if k == 0 {
      assert Flushes(0) + rest == rest;
      t := s;
    } else {
      assert Recycling(s) by { InvRecycling(s); }
      NextInv(s, Flush);
      var n := Next(s, Flush);
      ExecOne(s, Flush, Flushes(k - 1) + rest);
      assert Flushes(k) + rest == [Flush] + (Flushes(k - 1) + rest);
      t := FlushMany(n, k - 1, rest);
    }
  }

  lemma InvRecycling(s: State)
    requires Inv(s)
    ensures Recycling(s)
  {
  }

  lemma {:induction false} ExecOne(s: State, action: Action, rest: seq<Action>)
    requires Inv(s)
    ensures Inv(Next(s, action)) && Exec(s, [action] + rest) == Exec(Next(s, action), rest)
  {
    hide Inv, Next;
    NextInv(s, action);
    assert ([action] + rest)[1..] == rest;
  }

  /** Flush queues even an empty buffer, so that a message of one record can be behind the second
      buffer of a batch of 27. */
  function LosingSchedule(msg: Message): seq<Action> {
    Flushes(2) + ([Output(msg)] + (Flushes(24) + [Writer, Writer, Writer, Writer]))
  }

  lemma {:induction false} MessageLost(init: State, msg: Message)
    requires Initial(init) && msg != []
    ensures Inv(init)
    ensures var s := Exec(init, LosingSchedule(msg)); s.all == msg && Held(s) == [] && Held(s) != s.all
  {
    InitInv(init);
    hide Exec, Inv, Held, Flushes;
    var writers := [Writer, Writer, Writer, Writer];
    var a := FlushMany(init, 2, [Output(msg)] + (Flushes(24) + writers));
    MessageQueued(a, msg, writers);
  }

  lemma {:induction false} MessageQueued(a: State, msg: Message, writers: seq<Action>)
    requires Inv(a) && a.pc == AtTop && a.running && |a.buffers| == 2 && a.logFile == a.all == []
    requires a.buffers[0] == EMPTY && a.buffers[1] == EMPTY && a.currentBuffer == EMPTY
    requires writers == [Writer, Writer, Writer, Writer]
    ensures var s := Exec(a, [Output(msg)] + (Flushes(24) + writers)); s.all == msg && Held(s) == []
  {
    hide Conserved, Sweeping, Exec, Held, Flushes;
    ExecOne(a, Output(msg), Flushes(24) + writers);
    var b := Next(a, Output(msg));
    var c := FlushMany(b, 24, writers);
    FourWriters(c);
  }

  lemma {:induction false} FourWriters(c: State)
    requires Inv(c) && c.pc == AtTop && c.running && |c.buffers| == 26 && c.logFile == []
    requires c.buffers[0] == EMPTY && c.buffers[1] == EMPTY
    ensures var s := Exec(c, [Writer, Writer, Writer, Writer]); s.all == c.all && Held(s) == []
  {
    var d := c.(pc := AtFlag);
    var e := d.(lastWrite := true, pc := AtLock);
    var f := SwappedOut(e);
    WriterStepped(c, d, [Writer, Writer, Writer]);
    WriterStepped(d, e, [Writer, Writer]);
    WriterStepped(e, f, [Writer]);
    var g := f.(buffersToWrite := f.buffersToWrite[..2], pc := Writing);
    WriterStepped(f, g, []);
    ExecNone(g);
    SwapReady(e);
    assert [Writer] + [Writer, Writer, Writer] == [Writer, Writer, Writer, Writer];
    assert [Writer] + [Writer, Writer] == [Writer, Writer, Writer] && [Writer] + [] == [Writer] && [Writer] + [Writer] == [Writer, Writer];
    hide Inv, Exec, Cat;
    assert g.buffersToWrite == [EMPTY] + [EMPTY];
    NothingHeld(g);
  }

  lemma {:induction false} WriterStepped(s: State, t: State, rest: seq<Action>)
    requires Inv(s) && t == WriterNext(s)
    ensures Inv(t) && Exec(s, [Writer] + rest) == Exec(t, rest)
  {
    hide Exec, Conserved, Sweeping;
    ExecOne(s, Writer, rest);
  }

  lemma {:induction false} NothingHeld(s: State)
    requires s.logFile == [] && s.buffersToWrite == [EMPTY] + [EMPTY] && s.written == 0 && s.buffers == [] && s.currentBuffer == EMPTY
    ensures Held(s) == []
  {
    hide Cat;
    CatNone();
    CatSnoc([], EMPTY);
    CatSnoc([EMPTY], EMPTY);
    assert s.buffersToWrite[0..] == [EMPTY] + [EMPTY] && [EMPTY] == [] + [EMPTY];
  }

  lemma ExecNone(s: State)
    requires Inv(s)
    ensures Exec(s, []) == s
  {
  }

  lemma SwapReady(s: State)
    requires Inv(s) && !HasBatch(s)
    ensures s.newBuffer1 == s.newBuffer2 == EMPTY && s.buffersToWrite == [] && (s.nextBuffer == Null || s.nextBuffer == EMPTY)
  {
    hide Conserved, Sweeping;
  }

  lemma RecycleReady(s: State)
    requires Inv(s) && HasBatch(s)
    ensures s.buffersToWrite != [] && (s.newBuffer2 == EMPTY || (s.newBuffer2 == Null && |s.buffersToWrite| >= 2))
  {
    hide Conserved, Sweeping;
  }

  // ---------------------------------------------------------------- the code

  class AsyncOutputer {
    var running: bool
    var currentBuffer: BufferPtr
    var nextBuffer: BufferPtr
    var buffers: seq<BufferPtr>

    var pc: Pc
    var lastWrite: bool
    var newBuffer1: BufferPtr
    var newBuffer2: BufferPtr
    var buffersToWrite: seq<BufferPtr>
    var written: nat
    var logFile: seq<char>

    ghost var all: seq<char>
    ghost var batches: seq<seq<BufferPtr>>
    ghost var before: seq<char>

    ghost function Look(): State
      reads this
    {
      State(running, currentBuffer, nextBuffer, buffers, pc, lastWrite, newBuffer1, newBuffer2, buffersToWrite, written,
            logFile, all, batches, before)
    }

    ghost predicate Valid()
      reads this
    {
      Inv(Look())
    }

    constructor ()
      ensures Valid() && Initial(Look())
    {
      running, currentBuffer, nextBuffer, buffers := true, EMPTY, EMPTY, [];
      pc, lastWrite, newBuffer1, newBuffer2, buffersToWrite, written, logFile := AtTop, true, EMPTY, EMPTY, [], 0, [];
      all, batches, before := [], [], [];
      new;
      InitInv(Look());
    }

    // ------------------------------------------------------------ producers

    /** Nothing is lost by it, and there is a current buffer again. */
    method Exchange()
      requires Valid()
      modifies this`buffers, this`currentBuffer, this`nextBuffer
      ensures Look() == Exchanged(old(Look())) && Valid()
      ensures currentBuffer == EMPTY && nextBuffer == Null && Queued(Look()) == Queued(old(Look()))
    {
      hide Conserved, Sweeping, Queued;
      ExchangedInv(Look());
      buffers := buffers + [currentBuffer];
      currentBuffer := Null;
      if nextBuffer != Null {
        currentBuffer, nextBuffer := nextBuffer, Null;
      } else {
        currentBuffer := EMPTY;
      }
    }

    method Output(msg: Message)
      requires Valid()
      modifies this`buffers, this`currentBuffer, this`nextBuffer, this`all
      ensures Look() == Next(old(Look()), Action.Output(msg)) && Valid()
      ensures all == old(all) + msg
      // a record that fits stays in the current buffer; one that does not starts the next one
      ensures |msg| <= LARGE_SIZE - 1 - |old(currentBuffer).contents| ==>
        buffers == old(buffers) && nextBuffer == old(nextBuffer) && currentBuffer == Ptr(old(currentBuffer).contents + msg)
      ensures |msg| > LARGE_SIZE - 1 - |old(currentBuffer).contents| ==>
        buffers == old(buffers) + [old(currentBuffer)] && nextBuffer == Null && currentBuffer == Ptr(msg)
    {
      hide Conserved, Sweeping;
      NextInv(Look(), Action.Output(msg));
      if |msg| > GetAvail(currentBuffer) {
        Exchange();
      }
      currentBuffer := Append(currentBuffer, msg);
      all := all + msg;
    }

    method Flush()
      requires Valid()
      modifies this`buffers, this`currentBuffer, this`nextBuffer
      ensures Look() == Next(old(Look()), Action.Flush) && Valid()
      ensures currentBuffer == EMPTY && nextBuffer == Null && Queued(Look()) == Queued(old(Look()))
      ensures buffers == old(buffers) + [old(currentBuffer)]
    {
      Exchange();
    }

    method Stop()
      requires Valid()
      modifies this`running, this`before
      ensures Look() == Next(old(Look()), Action.Stop) && Valid()
      ensures !running && before <= all
    {
      hide Cat, CatAll, CatKept;
      NextInv(Look(), Action.Stop);
      if running {
        before := all;
      }
      running := false;
    }

    // ------------------------------------------------------------ the writer

    /** One atomic step of Run. */
    method WriterStep()
      requires Valid()
      modifies this`buffers, this`currentBuffer, this`nextBuffer, this`pc, this`lastWrite, this`newBuffer1,
        this`newBuffer2, this`buffersToWrite, this`written, this`logFile, this`batches
      ensures Look() == Next(old(Look()), Writer) && Valid()
      ensures old(logFile) <= logFile
      // it waits before a swap exactly when nothing is queued, and ends exactly when told to
      ensures old(pc) == AtLock ==> (pc == Waiting <==> old(buffers) == []) && (pc == Swapped <==> old(buffers) != [])
      ensures pc == Returned && old(pc) != Returned ==> !running && !lastWrite && old(pc) == AtTop
    {
      hide Conserved, Sweeping;
      NextInv(Look(), Writer);
      match pc
      case AtTop =>
        pc := if running || lastWrite then AtFlag else Returned;
      case AtFlag =>
        lastWrite := running;
        pc := AtLock;
      case AtLock =>
        if buffers == [] {
          pc := Waiting;
        } else {
          SwapBuffers();
        }
      case Waiting =>
        SwapBuffers();
      case Swapped =>
        DropExcess();
      case Writing =>
        if written < |buffersToWrite| {
          WriteOne();
        } else {
          Recycle();
        }
      case Returned =>
    }

    /** The lock section of Run, after the wait: everything queued becomes the batch, and both
        spare buffers are there to take its place. */
    method SwapBuffers()
      requires Valid() && (pc == AtLock || pc == Waiting)
      modifies this`buffers, this`currentBuffer, this`nextBuffer, this`pc, this`newBuffer1, this`newBuffer2,
        this`buffersToWrite, this`batches
      ensures Look() == SwappedOut(old(Look())) && Valid()
      ensures buffersToWrite == old(buffers) + [old(currentBuffer)] && Cat(buffersToWrite) == Queued(old(Look()))
      ensures buffers == [] && currentBuffer == EMPTY && nextBuffer == EMPTY
    {
      hide Inv, Cat, Queued;
      SwapReady(Look());
      SwappedInv(Look());
      TakeQueue();
      RefillNext();
      pc := Swapped;
      batches := batches + [buffersToWrite];
    }

    method TakeQueue()
      modifies this`buffers, this`currentBuffer, this`newBuffer1, this`buffersToWrite
      ensures buffersToWrite == old(buffers) + [old(currentBuffer)] && buffers == old(buffersToWrite)
      ensures currentBuffer == old(newBuffer1) && newBuffer1 == Null
    {
      buffers := buffers + [currentBuffer];
      currentBuffer, newBuffer1 := newBuffer1, Null;
      buffers, buffersToWrite := buffersToWrite, buffers;
    }

    method RefillNext()
      modifies this`nextBuffer, this`newBuffer2
      ensures nextBuffer == if old(nextBuffer) == Null then old(newBuffer2) else old(nextBuffer)
      ensures newBuffer2 == if old(nextBuffer) == Null then Null else old(newBuffer2)
    {
      if nextBuffer == Null {
        nextBuffer, newBuffer2 := newBuffer2, Null;
      }
    }

    /** A batch of more than 25 buffers is cut down to its first two; that is where bytes are
        lost, exactly those of the other buffers. */
    method DropExcess()
      requires Valid() && pc == Swapped
      modifies this`buffersToWrite, this`pc
      ensures Look() == WriterNext(old(Look())) && Valid()
      ensures Cat(old(buffersToWrite)) == Cat(buffersToWrite) + Cat(DroppedPart(old(buffersToWrite)))
      ensures DroppedPart(old(buffersToWrite)) != [] <==> |old(buffersToWrite)| > MAX_BATCH
    {
      hide Cat, Conserved, Sweeping;
      DroppedInv(Look());
      if |buffersToWrite| > 25 {
        buffersToWrite := buffersToWrite[..2];
      }
      pc := Writing;
    }

    method WriteOne()
      requires Valid() && pc == Writing && written < |buffersToWrite|
      modifies this`logFile, this`written
      ensures Look() == WriterNext(old(Look())) && Valid()
      ensures logFile == old(logFile) + Bytes(buffersToWrite[old(written)])
      ensures logFile + Unwritten(Look()) == old(logFile) + Unwritten(old(Look()))
    {
      hide Conserved, Sweeping, Unwritten;
      WriteInv(Look());
      logFile := logFile + Bytes(buffersToWrite[written]);
      written := written + 1;
    }

    /** The last written buffers become the spare ones again. There are enough of them: back()
        is never taken of an empty vector. */
    method Recycle()
      requires Valid() && pc == Writing && written == |buffersToWrite|
      modifies this`newBuffer1, this`newBuffer2, this`buffersToWrite, this`written, this`pc
      ensures Look() == WriterNext(old(Look())) && Valid()
      ensures newBuffer1 == newBuffer2 == EMPTY
    {
      hide Inv, Unwritten;
      RecycleReady(Look());
      WriteInv(Look());
      TakeBack();
      buffersToWrite, written := [], 0;
      pc := AtTop;
    }

    method TakeBack()
      requires buffersToWrite != [] && (newBuffer2 == EMPTY || (newBuffer2 == Null && |buffersToWrite| >= 2))
      modifies this`newBuffer1, this`newBuffer2, this`buffersToWrite
      ensures newBuffer1 == newBuffer2 == EMPTY
    {
      if |buffersToWrite| > 2 {
        buffersToWrite := buffersToWrite[..2];
      }
      newBuffer1 := buffersToWrite[|buffersToWrite| - 1];
      buffersToWrite := buffersToWrite[..|buffersToWrite| - 1];
      newBuffer1 := EMPTY;   // clear()
      if newBuffer2 == Null {
        newBuffer2 := buffersToWrite[|buffersToWrite| - 1];
        buffersToWrite := buffersToWrite[..|buffersToWrite| - 1];
        newBuffer2 := EMPTY;
      }
    }

    // ------------------------------------------------------------ whole runs

    /** The code does, step by step, what the protocol says. */
    method Execute(schedule: seq<Action>)
      requires Valid()
      modifies this
      ensures Look() == Exec(old(Look()), schedule) && Valid()
      // whenever the lock is free there is a current buffer, and a spare one or a queued one
      ensures currentBuffer != Null && (nextBuffer == Null ==> buffers != [])
    {
      hide Conserved, Sweeping, Exec;
      for i := 0 to |schedule|
        invariant Valid() && Exec(Look(), schedule[i..]) == Exec(old(Look()), schedule)
      {
        hide Next;
        ExecOne(Look(), schedule[i], schedule[i + 1..]);
        assert schedule[i..] == [schedule[i]] + schedule[i + 1..];
        match schedule[i]
        case Output(msg) => Output(msg);
        case Flush => Flush();
        case Stop => Stop();
        case Writer => WriterStep();
      }
      ExecNone(Look());
    }
  }
}
