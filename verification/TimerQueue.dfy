/** The timer queue: an ordered set and an id map that must agree, timers moved out on
    expiry, callbacks that add and cancel while a batch runs, and one kernel timer. */
module TimerQueues {
  import opened Timers

  /** The kernel timer: nothing set, or set at time `armedAt` to go off at `deadline`. It
      stays set, readable once the deadline has passed, until it is read or set again. */
  datatype Alarm = Idle | Armed(armedAt: int, deadline: int)

  /** What a callback does to the queue: it adds timers that the allocator and the id counter
      have made, or cancels ids, at a time it reads off the clock. */
  datatype Action = Add(a: Address, t: Timer, at: int) | Cancel(id: TimerId)

  /** One thing the loop does to the queue. */
  datatype Input = Call(action: Action) | Fire(now: int, actions: seq<seq<Action>>, at: int)

  ghost predicate AlarmInTime(h: Heap, ts: seq<Address>, alarm: Alarm, clock: int)
    requires Live(h, ts)
  {
    && (alarm.Armed? ==> alarm.armedAt <= clock)
    && (ts != [] ==>
          && alarm.Armed?
          && (alarm.deadline <= h[ts[0]].expiration || alarm.deadline <= alarm.armedAt + 10))
  }

  // ---------------------------------------------------------------- what actions do

  /** The live timers, the id map, the ids used so far and the history. */
  datatype Books = Books(heap: Heap, active: ActiveMap, issued: IdSet, log: seq<Event>)

  /** The allocator hands out free memory, ids are never used twice, and AddTimer has checked
      the time. */
  predicate CanBeMade(q: Books, action: Action) {
    action.Add? && action.a !in q.heap && action.a != NULL && action.t.id !in q.issued && action.t.expiration > 0
  }

  /** One addition or cancellation, in batch number `during` or outside any. */
  function Acted(q: Books, action: Action, during: int): Books {
    match action
    case Add(a, t, _) =>
      if CanBeMade(q, action) then Books(q.heap[a := t], q.active[t.id := a], q.issued + {t.id}, q.log) else q
    case Cancel(id) =>
      Books(if id in q.active then q.heap - {q.active[id]} else q.heap, q.active - {id}, q.issued,
            if id in q.issued then q.log + [Cancelled(id, during)] else q.log)
  }

  function ActedAll(q: Books, actions: seq<Action>, during: int): Books
    decreases |actions|
  {
    if actions == [] then q else
      Acted(ActedAll(q, actions[..|actions| - 1], during), actions[|actions| - 1], during)
  }

  /** What the k-th callback of a batch does. */
  function ActionsOf(actions: seq<seq<Action>>, k: nat): seq<Action> {
    if k < |actions| then actions[k] else []
  }

  /** One callback: it is noted, then it acts. */
  function RanOne(q: Books, id: TimerId, actions: seq<Action>, batch: int): Books {
    ActedAll(q.(log := q.log + [Ran(id, batch)]), actions, batch)
  }

  /** All callbacks of a batch, in order. */
  function RanAll(q: Books, due: seq<TimerId>, actions: seq<seq<Action>>, batch: int): Books
    decreases |due|
  {
    if due == [] then q else
      var k := |due| - 1;
      RanOne(RanAll(q, due[..k], actions, batch), due[k], ActionsOf(actions, k), batch)
  }

  lemma ActedNone(q: Books, during: int)
    ensures ActedAll(q, [], during) == q
  {
  }

  lemma ActedMore(q: Books, actions: seq<Action>, during: int, i: nat)
    requires i < |actions|
    ensures ActedAll(q, actions[..i + 1], during) == Acted(ActedAll(q, actions[..i], during), actions[i], during)
  {
    assert actions[..i + 1][..i] == actions[..i];
  }

  lemma RanNone(q: Books, actions: seq<seq<Action>>, batch: int)
    ensures RanAll(q, [], actions, batch) == q
  {
  }

  lemma RanMore(q: Books, due: seq<TimerId>, actions: seq<seq<Action>>, batch: int, k: nat)
    requires k < |due|
    ensures RanAll(q, due[..k + 1], actions, batch)
         == RanOne(RanAll(q, due[..k], actions, batch), due[k], ActionsOf(actions, k), batch)
  {
    assert due[..k + 1][..k] == due[..k];
  }

  // ---------------------------------------------------------------- what a batch does

  /** The queue at one moment outside HandleRead. */
  datatype View = View(books: Books, timers: seq<Address>, alarm: Alarm, clock: int, batch: nat)

  /** The kernel timer was set at `clock` for `time`, or 10 microseconds ahead if that has passed. */
  ghost predicate SetFor(alarm: Alarm, time: int, clock: int) {
    alarm == Armed(clock, if time > clock then time else clock + 10)
  }

  /** It was set at `clock` for the first stored timer, if there is one. */
  ghost predicate FirstSet(h: Heap, ts: seq<Address>, alarm: Alarm, clock: int)
    requires Live(h, ts)
  {
    ts != [] ==> SetFor(alarm, h[ts[0]].expiration, clock)
  }

  /** The kernel timer has been read: it is not due at `now` any more. */
  ghost predicate Unread(alarm: Alarm, now: int) {
    alarm.Armed? ==> alarm.deadline > now
  }

  /** The first stored timer expires later than `t` does, or there is none. */
  ghost predicate Earlier(h: Heap, ts: seq<Address>, t: Timer)
    requires Live(h, ts)
  {
    ts == [] || t.expiration < h[ts[0]].expiration
  }

  /** What becomes of a timer of the batch: a repeating one that no callback cancelled is stored
      again, to go off one interval after `now`; no other is. */
  ghost predicate Fate(q: Books, id: TimerId, t: Timer, now: int, batch: nat) {
    if t.IsRepeated() && Cancelled(id, batch) !in q.log
    then id in q.active && q.active[id] in q.heap && OneIntervalLater(t, q.heap[q.active[id]], now)
    else id !in q.active
  }

  /** A batch: `due` are the timers due at `now`, once each and in order of expiration. Their
      callbacks run in that order and do what they do. Afterwards each of them has met its
      fate, and every other timer is stored exactly as the callbacks left it. */
  ghost predicate Fired(v: View, now: int, due: seq<TimerId>, actions: seq<seq<Action>>, w: View) {
    var mid := RanAll(v.books.(active := v.books.active - Members(due)), due, actions, w.batch);
    && ActiveIn(v.books.heap, v.books.active) && IsDueBatch(v.books.heap, v.books.active, now, due)
    && w.batch == v.batch + 1 && w.clock >= now
    // the kernel timer is read, and set for the first timer that is stored now
    && Unread(w.alarm, now) && Live(w.books.heap, w.timers) && FirstSet(w.books.heap, w.timers, w.alarm, w.clock)
    && w.books.log == mid.log && w.books.issued == mid.issued && Runs(w.books.log) == Runs(v.books.log) + due
    && (forall id :: id in due ==> id in v.books.active && Fate(w.books, id, v.books.heap[v.books.active[id]], now, w.batch))
    && (forall id :: id !in due ==> (id in w.books.active <==> id in mid.active))
    && (forall id :: id !in due && id in w.books.active ==>
          w.books.active[id] == mid.active[id] && Kept(mid.heap, w.books.heap, mid.active[id]))
  }

  /** What an action does to the kernel timer: an addition that comes first sets it. */
  ghost predicate AlarmAfter(q: Books, ts: seq<Address>, alarm: Alarm, action: Action, clock: int, alarm': Alarm) {
    && Live(q.heap, ts)
    && if CanBeMade(q, action) && Earlier(q.heap, ts, action.t) then SetFor(alarm', action.t.expiration, clock)
       else alarm' == alarm
  }

  class TimerQueue {
    var heap: Heap
    var timers: seq<Address>               // the ordered set, in order
    var activeTimers: ActiveMap
    var expiredTimers: seq<Address>
    var cancelingTimers: IdSet
    var isExecutingTimers: bool
    var alarm: Alarm
    var clock: int                         // the time of the latest call
    var issued: IdSet               // ids of the timers inserted so far

    ghost var log: seq<Event>
    ghost var batch: nat                   // number of the batch that is or was last executed
    ghost var ids: IdSet            // ids of the timers in that batch
    ghost var ran: IdSet            // ids of those that have run in it

    ghost predicate Known()
      reads this
    {
      && (forall a :: a in heap ==> heap[a].id in issued && heap[a].expiration > 0)
      && (forall p :: 0 <= p < |log| ==> log[p].id in issued)
      && ids <= issued
      && (forall i :: 0 <= i < |expiredTimers| && expiredTimers[i] in heap ==> heap[expiredTimers[i]].id in ids)
    }

    /** Holds between any two statements of the loop thread that touch the containers. */
    ghost predicate Core()
      reads this
    {
      && Consistent(heap, timers, activeTimers, expiredTimers)
      && Known()
      && Tracked(log, activeTimers.Keys, ids, cancelingTimers, batch, ran)
      && (alarm.Armed? ==> alarm.armedAt <= clock)
      && (isExecutingTimers ==> activeTimers.Keys !! ids)
    }

    ghost function Look(): Books
      reads this
    {
      Books(heap, activeTimers, issued, log)
    }

    ghost function LookAll(): View
      reads this
    {
      View(Look(), timers, alarm, clock, batch)
    }

    /** No batch is under way. */
    ghost predicate Quiet()
      reads this
    {
      Core() && expiredTimers == [] && cancelingTimers == {} && ids == {} && !isExecutingTimers
    }

    /** Holds outside HandleRead. */
    ghost predicate Valid()
      reads this
    {
      Quiet() && AlarmInTime(heap, timers, alarm, clock)
    }

    constructor (now: int)
      ensures Valid() && heap == map[] && log == [] && clock == now && issued == {}
    {
      heap, timers, activeTimers, expiredTimers := map[], [], map[], [];
      cancelingTimers, isExecutingTimers, alarm, clock, issued := {}, false, Idle, now, {};
      log, batch, ids, ran := [], 0, {}, {};
    }

    // ------------------------------------------------------------ the ordered set

    /** The lower bound of an entry. */
    method LowerBound(a: Address) returns (i: nat)
      requires Live(heap, timers) && Ordered(heap, timers) && a in heap
      ensures Place(heap, timers, a, i)
    {
      i := 0;
      while i < |timers| && Less(heap, timers[i], a)
        invariant i <= |timers| && forall j :: 0 <= j < i ==> Less(heap, timers[j], a)
      {
        i := i + 1;
      }
    }

    /** The upper bound of a time. */
    method UpperBound(now: int) returns (end: nat)
      requires Live(heap, timers) && Ordered(heap, timers)
      ensures DueCount(heap, timers, now, end)
    {
      end := 0;
      while end < |timers| && heap[timers[end]].expiration <= now
        invariant end <= |timers| && forall j :: 0 <= j < end ==> heap[timers[j]].expiration <= now
      {
        end := end + 1;
      }
    }

    method Insert(a: Address) returns (earliest: bool)
      requires a in heap && Live(heap, timers) && Ordered(heap, timers) && Agree(heap, timers, activeTimers)
      requires a !in timers && heap[a].id !in activeTimers
      modifies this`timers, this`activeTimers
      ensures Live(heap, timers) && Ordered(heap, timers) && Agree(heap, timers, activeTimers)
      ensures forall b :: b in timers <==> b in old(timers) || b == a
      ensures activeTimers == old(activeTimers)[heap[a].id := a]
      ensures earliest ==> timers[0] == a
      ensures earliest <==> old(timers) == [] || heap[a].expiration < heap[old(timers)[0]].expiration
      ensures !earliest ==> old(timers) != [] && heap[timers[0]].expiration == heap[old(timers)[0]].expiration
    {
      hide Less, Agree;
      earliest := timers == [] || heap[a].expiration < heap[timers[0]].expiration;
      var i := LowerBound(a);
      InsertOrdered(heap, timers, a, i);
      AgreeInsert(heap, timers, activeTimers, a, i);
      FirstAfterInsert(heap, timers, a, i);
      timers := InsertAt(timers, i, a);
      activeTimers := activeTimers[heap[a].id := a];
    }

    // ------------------------------------------------------------ the kernel timer

    /** Sets the kernel timer for `time`; a time that has passed is replaced by 10
        microseconds from now. */
    method ResetTimerFd(time: int)
      modifies this`alarm
      ensures SetFor(alarm, time, clock)
    {
      var left := time - clock;
      if !(left > 0) {
        left := 10;
      }
      alarm := Armed(clock, clock + left);
    }

    /** Reading the descriptor clears a timer that has gone off; otherwise the read fails. */
    method ReadTimerFd(now: int)
      modifies this`alarm
      ensures alarm == if old(alarm).Armed? && old(alarm).deadline <= now then Idle else old(alarm)
    {
      if alarm.Armed? && alarm.deadline <= now {
        alarm := Idle;
      }
    }

    // ------------------------------------------------------------ adding and cancelling

    method AddTimerInLoop(a: Address, t: Timer)
      requires Core() && a !in heap && a != NULL && t.id !in issued && t.expiration > 0
      modifies this`heap, this`timers, this`activeTimers, this`alarm, this`issued
      ensures Core() && heap == old(heap)[a := t] && issued == old(issued) + {t.id}
      ensures activeTimers == old(activeTimers)[t.id := a]
      // the kernel timer is set again exactly when this timer comes first, and for its time
      ensures if Earlier(old(heap), old(timers), t) then SetFor(alarm, t.expiration, clock) else alarm == old(alarm)
      ensures old(AlarmInTime(heap, timers, alarm, clock)) ==> AlarmInTime(heap, timers, alarm, clock)
    {
      hide Consistent, Tracked;
      TrackAdd(log, activeTimers.Keys, ids, cancelingTimers, batch, ran, t.id);
      issued := issued + {t.id};
      var earliest := Store(a, t);
      assert activeTimers.Keys == old(activeTimers).Keys + {t.id};
      if earliest {
        ResetTimerFd(t.expiration);
      }
    }

    /** Creates a timer and stores it. */
    method Store(a: Address, t: Timer) returns (earliest: bool)
      requires Consistent(heap, timers, activeTimers, expiredTimers) && a !in heap && a != NULL
      requires forall b :: b in heap ==> heap[b].id != t.id
      modifies this`heap, this`timers, this`activeTimers
      ensures Consistent(heap, timers, activeTimers, expiredTimers)
      ensures heap == old(heap)[a := t] && activeTimers == old(activeTimers)[t.id := a]
      ensures Live(heap, timers) && timers != []
      ensures Live(old(heap), old(timers)) && a !in expiredTimers
      ensures earliest ==> timers[0] == a
      ensures earliest <==> Earlier(old(heap), old(timers), t)
      ensures !earliest ==> old(timers) != [] && heap[timers[0]].expiration == old(heap)[old(timers)[0]].expiration
    {
      hide Ordered, Agree, OwnedOnce;
      NewTimer(heap, timers, activeTimers, expiredTimers, a, t);
      heap := heap[a := t];
      earliest := Insert(a);
      OwnedInsert(old(heap), old(timers), expiredTimers, a, t, timers);
    }

    method CancelTimerInLoop(id: TimerId)
      requires Core() && (!isExecutingTimers ==> ids == {}) && Live(heap, expiredTimers)
      modifies this`heap, this`timers, this`activeTimers, this`cancelingTimers, this`log
      ensures SameAt(old(heap), heap, expiredTimers)
      ensures Core() && activeTimers == old(activeTimers) - {id}
      ensures heap == if id in old(activeTimers) then old(heap) - {old(activeTimers)[id]} else old(heap)
      ensures !isExecutingTimers ==> cancelingTimers == old(cancelingTimers)
      ensures id in issued ==> log == old(log) + [Cancelled(id, if isExecutingTimers then batch else IDLE)]
      ensures id !in issued ==> log == old(log)
      ensures old(AlarmInTime(heap, timers, alarm, clock)) ==> AlarmInTime(heap, timers, alarm, clock)
    {
      hide Less, Honest, Tracked;
      var b := if isExecutingTimers then batch else IDLE;
      if id in activeTimers {
        EraseStored(id);
        TrackCancelLive(log, old(activeTimers).Keys, ids, cancelingTimers, batch, ran, id, b);
        assert activeTimers.Keys == old(activeTimers).Keys - {id};
      } else {
        assert activeTimers == activeTimers - {id};
        if isExecutingTimers {
          cancelingTimers := cancelingTimers + {id};
          if id in issued {
            TrackCancelBatch(log, activeTimers.Keys, ids, old(cancelingTimers), batch, ran, id);
          } else {
            TrackCancelUnknown(log, activeTimers.Keys, ids, old(cancelingTimers), batch, ran, id);
          }
        } else {
          TrackCancelLive(log, activeTimers.Keys, ids, cancelingTimers, batch, ran, id, b);
          assert activeTimers.Keys == activeTimers.Keys - {id};
        }
      }
      if id in issued {
        log := log + [Cancelled(id, b)];
      }
    }

    /** Erases a stored timer from both containers. The entry's key has not changed since it
        was stored, so the lookup by order succeeds. */
    method EraseStored(id: TimerId)
      requires Consistent(heap, timers, activeTimers, expiredTimers) && id in activeTimers
      modifies this`heap, this`timers, this`activeTimers
      ensures Consistent(heap, timers, activeTimers, expiredTimers)
      ensures activeTimers == old(activeTimers) - {id} && heap == old(heap) - {old(activeTimers)[id]}
      ensures timers != [] ==> heap[timers[0]].expiration >= old(heap[timers[0]].expiration)
      ensures old(activeTimers)[id] !in expiredTimers
    {
      var a := activeTimers[id];
      var i := LowerBound(a);
      LookupExact(heap, timers, a, i);
      assert i < |timers| && timers[i] == a;   // the lookup's assertion
      hide Consistent;
      EraseConsistent(heap, timers, activeTimers, expiredTimers, i);
      activeTimers := activeTimers - {id};
      timers := RemoveAt(timers, i);
      heap := heap - {a};   // erasing the entry destroys the Timer it owns
    }

    /** The time moves on. */
    method Tick(at: int)
      modifies this`clock
      ensures clock == if at > old(clock) then at else old(clock)
    {
      if at > clock {
        clock := at;
      }
    }

    /** Performs an action, if the allocator and the id counter can have made it. */
    method Perform(action: Action)
      requires Core() && (!isExecutingTimers ==> ids == {}) && Live(heap, expiredTimers)
      modifies this`heap, this`timers, this`activeTimers, this`alarm, this`issued, this`cancelingTimers, this`log,
        this`clock
      ensures Core() && Look() == Acted(old(Look()), action, if isExecutingTimers then batch else IDLE)
      ensures clock == if action.Add? then Later(action.at, old(clock)) else old(clock)
      ensures !isExecutingTimers ==> cancelingTimers == old(cancelingTimers)
      ensures SameAt(old(heap), heap, expiredTimers) && Runs(log) == Runs(old(log))
      ensures AlarmAfter(old(Look()), old(timers), old(alarm), action, clock, alarm)
      ensures old(AlarmInTime(heap, timers, alarm, clock)) ==> AlarmInTime(heap, timers, alarm, clock)
    {
      hide Consistent, Tracked, Runs;
      StoredLive();
      match action
      case Add(a, t, at) =>
        Tick(at);
        if a !in heap && a != NULL && t.id !in issued && t.expiration > 0 {
          AddTimerInLoop(a, t);
        }
      case Cancel(id) =>
        RunsSnoc(log, Cancelled(id, if isExecutingTimers then batch else IDLE));
        CancelTimerInLoop(id);
    }

    lemma StoredLive()
      requires Core()
      ensures Live(heap, timers)
    {
    }

    // ------------------------------------------------------------ a batch

    method GetExpired(now: int) returns (ghost n: nat)
      requires Quiet()
      modifies this`timers, this`activeTimers, this`expiredTimers, this`batch, this`ids, this`ran
      ensures Core() && batch == old(batch) + 1 && ran == {} && activeTimers.Keys !! ids
      ensures Live(heap, old(timers)) && DueCount(heap, old(timers), now, n)
      ensures expiredTimers == old(timers)[..n] && timers == old(timers)[n..]
      ensures Without(old(activeTimers), activeTimers, expiredTimers)
    {
      hide Less, Tracked, Without, Agree, OwnedOnce, DistinctIds;
      var end := UpperBound(now);
      n := end;
      MoveOut(end);
      ghost var due := set i | 0 <= i < end :: heap[timers[i]].id;
      ExpireConsistent(heap, timers, old(activeTimers), activeTimers, end);
      TrackStart(log, old(activeTimers).Keys, ids, cancelingTimers, batch, ran, activeTimers.Keys, due);
      ids, batch, ran := due, batch + 1, {};
      timers := timers[end..];
    }

    /** The loop of GetExpired; the set's own entries are erased after it. */
    method MoveOut(end: nat)
      requires Live(heap, timers) && Agree(heap, timers, activeTimers) && expiredTimers == [] && end <= |timers|
      modifies this`activeTimers, this`expiredTimers
      ensures expiredTimers == timers[..end]
      ensures Without(old(activeTimers), activeTimers, timers[..end])
    {
      hide Agree;
      for i := 0 to end
        invariant expiredTimers == timers[..i]
        invariant Without(old(activeTimers), activeTimers, timers[..i])
      {
        WithoutNext(heap, timers, old(activeTimers), activeTimers, i);
        activeTimers := activeTimers - {heap[timers[i]].id};
        expiredTimers := expiredTimers + [timers[i]];
      }
    }

    /** Gives an expired timer back to the queue, with its next expiration. */
    method Reinsert(k: nat, now: int)
      requires Consistent(heap, timers, activeTimers, expiredTimers)
      requires k < |expiredTimers| && expiredTimers[k] in heap && heap[expiredTimers[k]].id !in activeTimers
      modifies this`heap, this`timers, this`activeTimers, this`expiredTimers
      ensures Consistent(heap, timers, activeTimers, expiredTimers)
      ensures var a := old(expiredTimers)[k]; var t := old(heap)[a];
        && heap == old(heap)[a := t.Restart(now)] && activeTimers == old(activeTimers)[t.id := a]
        && (t.IsRepeated() ==> OneIntervalLater(t, heap[a], now))
      ensures expiredTimers == old(expiredTimers)[k := NULL] && NULL !in heap
    {
      hide Ordered, Agree, OwnedOnce;
      var a := expiredTimers[k];
      if heap[a].IsRepeated() {
        RestartExact(heap[a], now);
      }
      RestartConsistent(heap, timers, activeTimers, expiredTimers, k, now);
      heap := heap[a := heap[a].Restart(now)];
      var _ := Insert(a);
      OwnedTransfer(old(heap), heap, old(timers), expiredTimers, k, timers);
      expiredTimers := expiredTimers[k := NULL];   // the list's pointer is released
    }

    /** The loop of ResetTimer. */
    method PutBack(now: int)
      requires Core() && !isExecutingTimers && now > 0 && Live(heap, expiredTimers)
      requires activeTimers.Keys !! ids
      modifies this`heap, this`timers, this`activeTimers, this`expiredTimers
      ensures Core()
      ensures Settled(old(heap), heap, old(activeTimers), activeTimers, old(expiredTimers), cancelingTimers, now)
    {
      hide Consistent, Tracked, Progress;
      ghost var h, active, xs := heap, activeTimers, expiredTimers;
      ProgressStart(h, timers, active, xs, ids, cancelingTimers, now);
      var i: nat := 0;
      while i < |expiredTimers|
        invariant Core() && i <= |expiredTimers| == |xs|
        invariant Progress(h, active, xs, heap, activeTimers, expiredTimers, cancelingTimers, now, i)
        decreases |xs| - i
      {
        ProgressNow(h, active, xs, heap, activeTimers, expiredTimers, cancelingTimers, now, i);
        var t := heap[expiredTimers[i]];
        if t.IsRepeated() && t.id !in cancelingTimers {
          ProgressReinsert(h, old(timers), active, xs, heap, activeTimers, expiredTimers, cancelingTimers, now, i);
          TrackReinsert(log, activeTimers.Keys, ids, cancelingTimers, batch, ran, t.id);
          MicrosPositive(t.interval);
          label before:
          Reinsert(i, now);
          assert activeTimers.Keys == old@before(activeTimers).Keys + {t.id};
        } else {
          ProgressSkip(h, active, xs, heap, activeTimers, expiredTimers, cancelingTimers, now, i);
        }
        i := i + 1;
      }
      ProgressEnd(h, active, xs, heap, activeTimers, expiredTimers, cancelingTimers, now);
    }

    /** Repeating timers that were not cancelled go back, the others are destroyed, and the
        kernel timer is set for the first timer stored now. */
    method ResetTimer(now: int, at: int)
      requires Core() && !isExecutingTimers && now > 0 && Live(heap, expiredTimers)
      requires activeTimers.Keys !! ids
      modifies this`heap, this`timers, this`activeTimers, this`expiredTimers, this`cancelingTimers, this`alarm,
        this`clock, this`ids
      ensures Valid() && clock >= old(clock)
      ensures Settled(old(heap), heap, old(activeTimers), activeTimers, old(expiredTimers), old(cancelingTimers), now)
      ensures FirstSet(heap, timers, alarm, clock) && (timers == [] ==> alarm == old(alarm))
    {
      hide Settled;
      PutBack(now);
      ghost var h := heap;
      Clear();
      SettledCleared(old(heap), h, heap, old(activeTimers), activeTimers, old(expiredTimers), old(cancelingTimers),
          now);
      SetAlarm(at);
    }

    /** Clearing the expired list destroys the timers it still owns. */
    method Clear()
      requires Core() && !isExecutingTimers
      modifies this`heap, this`expiredTimers, this`cancelingTimers, this`ids
      ensures Core() && expiredTimers == [] && cancelingTimers == {} && ids == {}
      ensures forall id :: id in activeTimers ==> Kept(old(heap), heap, activeTimers[id])
    {
      hide Consistent, Tracked;
      ClearConsistent(heap, timers, activeTimers, expiredTimers);
      TrackEnd(log, activeTimers.Keys, ids, cancelingTimers, batch, ran);
      heap := heap - (set a | a in expiredTimers);
      expiredTimers, cancelingTimers, ids := [], {}, {};
    }

    method SetAlarm(at: int)
      requires Core() && !isExecutingTimers
      modifies this`alarm, this`clock
      ensures Core() && clock >= old(clock) && AlarmInTime(heap, timers, alarm, clock)
      ensures FirstSet(heap, timers, alarm, clock) && (timers == [] ==> alarm == old(alarm))
    {
      hide Ordered, Agree, OwnedOnce, Tracked;
      Tick(at);
      if timers != [] {
        var nextExpired := heap[timers[0]].expiration;
        if nextExpired > 0 {
          ResetTimerFd(nextExpired);
        }
      }
    }

    /** An action of a callback. Timers stored before the callbacks ran stay as they are unless
        they are cancelled. */
    method PerformInBatch(action: Action, ghost h: Heap, ghost active: ActiveMap)
      requires Core() && isExecutingTimers && Live(heap, expiredTimers)
      requires active.Keys <= issued && Survive(h, active, heap, activeTimers, log, batch)
      modifies this`heap, this`timers, this`activeTimers, this`alarm, this`issued, this`cancelingTimers, this`log,
        this`clock
      ensures Core() && clock >= old(clock) && SameAt(old(heap), heap, expiredTimers)
      ensures Look() == Acted(old(Look()), action, batch) && Runs(log) == Runs(old(log))
      ensures alarm == old(alarm) || Unread(alarm, old(clock))
      ensures old(log) <= log && old(issued) <= issued
      ensures Survive(h, active, heap, activeTimers, log, batch)
    {
      hide Tracked, Runs, Survive, Ordered, OwnedOnce;
      if CanBeMade(Look(), action) {
        SurviveAdd(h, active, heap, activeTimers, log, batch, action.a, action.t);
      } else if action.Cancel? {
        SurviveCancel(h, active, heap, timers, activeTimers, log, batch, action.id);
      }
      Perform(action);
    }

    /** Runs one callback, which may perform any actions. */
    method RunTimer(k: nat, actions: seq<Action>, ghost h: Heap, ghost active: ActiveMap)
      requires Core() && isExecutingTimers && Live(heap, expiredTimers)
      requires active.Keys <= issued && Survive(h, active, heap, activeTimers, log, batch)
      requires k < |expiredTimers| && heap[expiredTimers[k]].id !in ran
      modifies this`heap, this`timers, this`activeTimers, this`alarm, this`issued, this`cancelingTimers, this`log,
        this`clock, this`ran
      ensures Core() && clock >= old(clock)
      ensures SameAt(old(heap), heap, expiredTimers) && ran == old(ran) + {old(heap)[expiredTimers[k]].id}
      ensures Look() == RanOne(old(Look()), old(heap)[expiredTimers[k]].id, actions, batch)
      ensures alarm == old(alarm) || Unread(alarm, old(clock))
      ensures old(log) <= log && Runs(log) == Runs(old(log)) + [old(heap)[expiredTimers[k]].id]
      ensures old(issued) <= issued && Survive(h, active, heap, activeTimers, log, batch)
    {
      hide Consistent, Tracked, Runs, Survive, ActedAll, Acted;
      SurviveRan(h, active, heap, activeTimers, log, batch, heap[expiredTimers[k]].id);
      ghost var id := heap[expiredTimers[k]].id;
      TrackRun(log, activeTimers.Keys, ids, cancelingTimers, batch, ran, id);
      RunsSnoc(log, Ran(id, batch));
      log, ran := log + [Ran(id, batch)], ran + {id};
      ghost var start := Look();
      ActedNone(start, batch);
      for i := 0 to |actions|
        invariant Look() == ActedAll(start, actions[..i], batch)
        invariant alarm == old(alarm) || Unread(alarm, old(clock))
        invariant Core() && clock >= old(clock) && ran == old(ran) + {id}
        invariant SameAt(old(heap), heap, expiredTimers)
        invariant old(log) <= log && Runs(log) == Runs(old(log)) + [id]
        invariant old(issued) <= issued && Survive(h, active, heap, activeTimers, log, batch)
      {
        ActedMore(start, actions, batch, i);
        PerformInBatch(actions[i], h, active);
      }
      assert actions[..|actions|] == actions;
    }

    /** Runs the callbacks of the batch; `actions[k]` is what the k-th one does. */
    method RunBatch(ghost h: Heap, ghost due: seq<TimerId>, actions: seq<seq<Action>>)
      requires Core() && isExecutingTimers && ran == {} && heap == h
      requires Live(h, expiredTimers) && due == Ids(h, expiredTimers)
      requires forall i, j :: 0 <= i < j < |due| ==> due[i] != due[j]
      modifies this`heap, this`timers, this`activeTimers, this`alarm, this`issued, this`cancelingTimers, this`log,
        this`clock, this`ran
      ensures Core() && clock >= old(clock) && SameAt(h, heap, expiredTimers)
      ensures Look() == RanAll(old(Look()), due, actions, batch)
      ensures alarm == old(alarm) || Unread(alarm, old(clock))
      ensures old(log) <= log && Runs(log) == Runs(old(log)) + due
      ensures forall i :: 0 <= i < |due| ==> (due[i] in cancelingTimers <==> Cancelled(due[i], batch) in log)
      ensures Survive(h, old(activeTimers), heap, activeTimers, log, batch)
    {
      hide Consistent, Tracked, Runs, Survive, RanOne, RanAll;
      RanNone(Look(), actions, batch);
      SurviveStart(h, timers, activeTimers, expiredTimers, log, ids, cancelingTimers, batch, ran);
      ActiveIssued(h, timers, activeTimers, expiredTimers, issued);
      assert Runs(log) == Runs(log) + due[..0];
      for k := 0 to |expiredTimers|
        invariant Look() == RanAll(old(Look()), due[..k], actions, batch)
        invariant alarm == old(alarm) || Unread(alarm, old(clock))
        invariant Core() && clock >= old(clock) && SameAt(h, heap, expiredTimers)
        invariant forall id :: id in ran <==> id in due[..k]
        invariant old(log) <= log && Runs(log) == Runs(old(log)) + due[..k]
        invariant old(activeTimers).Keys <= issued && Survive(h, old(activeTimers), heap, activeTimers, log, batch)
      {
        assert due[..k + 1] == due[..k] + [due[k]];
        RanMore(old(Look()), due, actions, batch, k);
        RunTimer(k, if k < |actions| then actions[k] else [], h, old(activeTimers));
      }
      TrackCancels(log, activeTimers.Keys, ids, cancelingTimers, batch, ran);
      assert due[..|due|] == due;
    }

    /** The kernel timer went off (or the loop was told so). `actions[k]` is what the k-th
        callback of the batch does; `at` is the time when the kernel timer is set again. */
    method HandleRead(now: int, actions: seq<seq<Action>>, at: int) returns (ghost due: seq<TimerId>)
      requires Valid() && now >= clock && now > 0
      modifies this
      ensures Valid() && old(log) <= log && Fired(old(LookAll()), now, due, actions, LookAll())
      // timers that were not due are gone if a callback cancelled them, else as they were
      ensures forall id :: id in old(activeTimers) && id !in due ==>
        if Cancelled(id, batch) in log then id !in activeTimers
        else id in activeTimers && activeTimers[id] == old(activeTimers)[id] && Kept(old(heap), heap, activeTimers[id])
    {
      hide Core, Runs, IsDueBatch, RanAll;
      due := Begin(now);
      ghost var xs, active := expiredTimers, activeTimers;
      RunBatch(heap, due, actions);
      ghost var h, mid, canceling := heap, activeTimers, cancelingTimers;
      End(now, at);
      StoredLive();
      forall id | id in due ensures Fate(Look(), id, old(heap)[old(activeTimers)[id]], now, batch) {
        var i :| 0 <= i < |due| && due[i] == id;
        assert SettledAt(h, heap, activeTimers, xs[i], canceling, now);
        FateRestart(old(heap)[old(activeTimers)[id]], now);
      }
      forall id | id !in due ensures id in activeTimers <==> id in mid {
        if OfBatch(h, xs, id) {
          OfBatchIds(old(heap), h, xs, due, id);
          assert false;
        }
      }
      forall id | id in old(activeTimers) && id !in due
        ensures if Cancelled(id, batch) in log then id !in activeTimers
                else id in activeTimers && activeTimers[id] == old(activeTimers)[id] && Kept(old(heap), heap, activeTimers[id])
      {
        if Cancelled(id, batch) in log {
          CancelledGone(id);
        } else {
          SurviveSettled(old(heap), h, heap, active, mid, activeTimers, xs, canceling, now, log, batch, id);
        }
      }
    }

    lemma FateRestart(t: Timer, now: int)
      ensures t.IsRepeated() ==> OneIntervalLater(t, t.Restart(now), now)
    {
      if t.IsRepeated() {
        RestartExact(t, now);
      }
    }

    lemma CancelledGone(id: TimerId)
      requires Core() && Cancelled(id, batch) in log
      ensures id !in activeTimers
    {
    }

    /** From the point where the callbacks have run. */
    method End(now: int, at: int)
      requires Core() && isExecutingTimers && now > 0 && Live(heap, expiredTimers)
      modifies this`heap, this`timers, this`activeTimers, this`expiredTimers, this`cancelingTimers, this`alarm,
        this`clock, this`ids, this`isExecutingTimers
      ensures Valid() && clock >= old(clock)
      ensures Settled(old(heap), heap, old(activeTimers), activeTimers, old(expiredTimers), old(cancelingTimers), now)
      ensures FirstSet(heap, timers, alarm, clock) && (timers == [] ==> alarm == old(alarm))
    {
      hide Consistent, Tracked, Settled;
      isExecutingTimers := false;
      ResetTimer(now, at);
    }

    /** Up to the point where the callbacks run. */
    method Begin(now: int) returns (ghost due: seq<TimerId>)
      requires Valid() && now >= clock && now > 0
      modifies this`clock, this`alarm, this`timers, this`activeTimers, this`expiredTimers, this`batch, this`ids,
        this`ran, this`isExecutingTimers
      ensures Core() && isExecutingTimers && clock == now && batch == old(batch) + 1 && ran == {} && Unread(alarm, now)
      ensures Live(heap, expiredTimers) && due == Ids(heap, expiredTimers)
      ensures forall i, j :: 0 <= i < j < |due| ==> due[i] != due[j]
      ensures ActiveIn(heap, old(activeTimers)) && IsDueBatch(heap, old(activeTimers), now, due)
      ensures forall i :: 0 <= i < |due| ==> due[i] in old(activeTimers) && old(activeTimers)[due[i]] == expiredTimers[i]
      ensures activeTimers == old(activeTimers) - Members(due)
    {
      hide Consistent, Tracked, IsDueBatch;
      clock := now;
      ReadTimerFd(now);
      ghost var n := GetExpired(now);
      DueFacts(heap, old(timers), old(activeTimers), now, n);
      due := Ids(heap, expiredTimers);
      NotDueStay(heap, old(timers), old(activeTimers), activeTimers, expiredTimers, due);
      isExecutingTimers := true;
    }

    // ------------------------------------------------------------ whole runs

    /** Any sequence of calls from the loop: additions, cancellations and batches whose
        callbacks add and cancel. The queue goes through the views of `trace`; each follows
        from the one before by the next input, and in each the containers agree, the kernel
        timer is in time and the history is honest. */
    method Drive(inputs: seq<Input>) returns (ghost trace: seq<View>)
      requires Valid() && clock > 0
      modifies this
      ensures Valid() && IsTrace(trace, inputs) && trace[0] == old(LookAll()) && trace[|inputs|] == LookAll()
    {
      hide Core, Stepped, Sound;
      trace := [LookAll()];
      ValidSound();
      for i := 0 to |inputs|
        invariant Valid() && clock > 0
        invariant IsTrace(trace, inputs[..i]) && trace[0] == old(LookAll()) && trace[i] == LookAll()
      {
        Take(inputs[i]);
        ValidSound();
        TraceMore(trace, inputs, i, LookAll());
        trace := trace + [LookAll()];
      }
      assert inputs[..|inputs|] == inputs;
    }

    lemma ValidSound()
      requires Valid()
      ensures Sound(LookAll())
    {
      hide Ordered, Agree, DistinctIds;
      forall p | 0 <= p < |log| && log[p].Cancelled? ensures log[p].id !in activeTimers {
        assert log[p].id !in activeTimers.Keys;
      }
    }

    method Take(input: Input)
      requires Valid() && clock > 0
      modifies this
      ensures Valid() && clock > 0 && Stepped(old(LookAll()), input, LookAll())
    {
      hide Core, AlarmInTime, Fired, Acted;
      match input
      case Call(action) =>
        PerformOutside(action);
      case Fire(now, actions, at) =>
        ghost var due := HandleRead(Later(now, clock), actions, at);
        FiredStepped(old(LookAll()), input, due, LookAll());
    }

    method PerformOutside(action: Action)
      requires Valid()
      modifies this
      ensures Valid() && batch == old(batch) && Look() == Acted(old(Look()), action, IDLE)
      ensures AlarmAfter(old(Look()), old(timers), old(alarm), action, clock, alarm)
      ensures clock == if action.Add? then Later(action.at, old(clock)) else old(clock)
    {
      hide Core, Runs, Acted;
      Perform(action);
    }
  }

  function Later(a: int, b: int): int {
    if a > b then a else b
  }

  /** What one input does. */
  ghost predicate Stepped(v: View, input: Input, w: View) {
    match input
    case Call(action) =>
      && w.books == Acted(v.books, action, IDLE) && w.batch == v.batch
      && AlarmAfter(v.books, v.timers, v.alarm, action, w.clock, w.alarm)
      && w.clock == if action.Add? then Later(action.at, v.clock) else v.clock
    case Fire(now, actions, at) =>
      exists due :: Fired(v, Later(now, v.clock), due, actions, w)
  }

  lemma FiredStepped(v: View, input: Input, due: seq<TimerId>, w: View)
    requires input.Fire? && Fired(v, Later(input.now, v.clock), due, input.actions, w)
    ensures Stepped(v, input, w) && w.clock >= v.clock
  {
  }

  /** What holds at every moment. */
  ghost predicate Sound(v: View) {
    // the containers hold the same timers, each live timer is owned once
    && Consistent(v.books.heap, v.timers, v.books.active, []) && (forall a :: a in v.books.heap <==> a in v.timers)
    // the kernel timer is set in time for the first of them
    && AlarmInTime(v.books.heap, v.timers, v.alarm, v.clock)
    // a cancelled timer runs at most once more, in the batch then executing, and never comes back
    && Honest(v.books.log)
    && (forall p :: 0 <= p < |v.books.log| && v.books.log[p].Cancelled? ==> v.books.log[p].id !in v.books.active)
  }

  ghost predicate IsTrace(trace: seq<View>, inputs: seq<Input>) {
    && |trace| == |inputs| + 1
    && (forall i :: 0 <= i < |trace| ==> Sound(trace[i]))
    && (forall i :: 0 <= i < |inputs| ==> Stepped(trace[i], inputs[i], trace[i + 1]))
  }

  lemma {:induction false} TraceMore(trace: seq<View>, inputs: seq<Input>, i: nat, w: View)
    requires i < |inputs| && IsTrace(trace, inputs[..i]) && Sound(w) && Stepped(trace[i], inputs[i], w)
    ensures IsTrace(trace + [w], inputs[..i + 1])
  {
    hide Stepped, Sound;
    var t := trace + [w];
    forall j | 0 <= j < i + 1 ensures Stepped(t[j], inputs[j], t[j + 1]) {
      if j < i {
        assert inputs[..i][j] == inputs[j];
      }
    }
  }
}
