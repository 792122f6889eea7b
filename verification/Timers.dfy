/** Timers as values: the order of the stored ones, the agreement of the queue's containers,
    what a batch does to them, and the history of runs and cancellations. */
module Timers {

  type TimerId = int

  type IdSet = set<TimerId>

  /** The address of a Timer object. */
  type Address = nat

  const NULL: Address := 0

  /** Timer::AddTime and Timer::Restart count in microseconds, cut off toward zero. */
  function Micros(seconds: real): int {
    if seconds >= 0.0 then (seconds * 1000000.0).Floor else -(-seconds * 1000000.0).Floor
  }

  datatype Timer = Timer(id: TimerId, expiration: int, interval: real) {
    predicate IsRepeated() { interval > 0.0 }

    function Restart(now: int): Timer { this.(expiration := now + Micros(interval)) }
  }

  /** `r` is the timer `t`, to go off one interval after `now`: the interval in seconds, counted
      in whole microseconds. */
  ghost predicate OneIntervalLater(t: Timer, r: Timer, now: int) {
    && r.id == t.id && r.interval == t.interval
    && (r.expiration - now) as real <= t.interval * 1000000.0 < (r.expiration - now + 1) as real
  }

  lemma RestartExact(t: Timer, now: int)
    requires t.IsRepeated()
    ensures OneIntervalLater(t, t.Restart(now), now)
  {
  }

  /** The id map of the stored timers. */
  type ActiveMap = map<TimerId, Address>

  /** The Timer objects that have been created and not yet destroyed. */
  type Heap = map<Address, Timer>

  // ---------------------------------------------------------------- the ordered set

  /** The order of entries: by expiration, then by address. */
  predicate Less(h: Heap, a: Address, b: Address)
    requires a in h && b in h
  {
    h[a].expiration < h[b].expiration || (h[a].expiration == h[b].expiration && a < b)
  }

  /** The comparison is a strict total order on the live timers, so the set never takes two of
      them for one, whatever their expirations. */
  lemma LessStrictTotal(h: Heap, a: Address, b: Address, c: Address)
    requires a in h && b in h && c in h
    ensures !Less(h, a, a)
    ensures Less(h, a, b) && Less(h, b, c) ==> Less(h, a, c)
    ensures a != b ==> (Less(h, a, b) <==> !Less(h, b, a))
  {
  }

  predicate Live(h: Heap, ts: seq<Address>) {
    forall i :: 0 <= i < |ts| ==> ts[i] in h
  }

  predicate Ordered(h: Heap, ts: seq<Address>)
    requires Live(h, ts)
  {
    forall i, j :: 0 <= i < j < |ts| ==> Less(h, ts[i], ts[j])
  }

  /** The place of `a` in the order: what is before it is smaller, the rest is not. */
  ghost predicate Place(h: Heap, ts: seq<Address>, a: Address, i: nat)
    requires Live(h, ts) && a in h
  {
    && i <= |ts|
    && (forall j :: 0 <= j < i ==> Less(h, ts[j], a))
    && (forall j :: i <= j < |ts| ==> !Less(h, ts[j], a))
  }

  function InsertAt(ts: seq<Address>, i: nat, a: Address): seq<Address>
    requires i <= |ts|
  {
    ts[..i] + [a] + ts[i..]
  }

  function RemoveAt(ts: seq<Address>, i: nat): seq<Address>
    requires i < |ts|
  {
    ts[..i] + ts[i + 1..]
  }

  lemma InsertOrdered(h: Heap, ts: seq<Address>, a: Address, i: nat)
    requires Live(h, ts) && Ordered(h, ts) && a in h && a !in ts && Place(h, ts, a, i)
    ensures Live(h, InsertAt(ts, i, a)) && Ordered(h, InsertAt(ts, i, a))
    ensures forall b :: b in InsertAt(ts, i, a) <==> b in ts || b == a
  {
    var us := InsertAt(ts, i, a);
    forall x, y | 0 <= x < y < |us| ensures us[x] in h && us[y] in h && Less(h, us[x], us[y]) {
      assert x < i ==> us[x] == ts[x];
      assert x > i ==> us[x] == ts[x - 1];
      assert y < i ==> us[y] == ts[y];
      assert y > i ==> us[y] == ts[y - 1];
    }
    forall b | b in ts || b == a ensures b in us {
      if b in ts {
        var k :| 0 <= k < |ts| && ts[k] == b;
        assert us[if k < i then k else k + 1] == b;
      } else {
        assert us[i] == a;
      }
    }
  }

  lemma RemoveOrdered(h: Heap, ts: seq<Address>, i: nat)
    requires Live(h, ts) && Ordered(h, ts) && i < |ts|
    ensures Live(h, RemoveAt(ts, i)) && Ordered(h, RemoveAt(ts, i))
    ensures forall b :: b in RemoveAt(ts, i) <==> b in ts && b != ts[i]
  {
    var us := RemoveAt(ts, i);
    assert forall k :: 0 <= k < |us| ==> us[k] == ts[if k < i then k else k + 1];
    forall b | b in ts && b != ts[i] ensures b in us {
      var k :| 0 <= k < |ts| && ts[k] == b;
      assert us[if k < i then k else k - 1] == b;
    }
  }

  /** Looking an entry up by its order finds the entry itself, and finds it when it is there. */
  lemma LookupExact(h: Heap, ts: seq<Address>, a: Address, i: nat)
    requires Live(h, ts) && Ordered(h, ts) && a in h && Place(h, ts, a, i)
    ensures (i < |ts| && !Less(h, a, ts[i])) <==> a in ts
    ensures a in ts ==> i < |ts| && ts[i] == a
  {
    if a in ts {
      var k :| 0 <= k < |ts| && ts[k] == a;
      assert forall j :: 0 <= j < k ==> Less(h, ts[j], ts[k]);
      assert !Less(h, ts[k], a);
    }
  }

  /** Entries read the same in two heaps. */
  predicate SameAt(h: Heap, h': Heap, ts: seq<Address>) {
    forall i :: 0 <= i < |ts| ==> ts[i] in h && ts[i] in h' && h[ts[i]] == h'[ts[i]]
  }

  lemma OrderedSame(h: Heap, h': Heap, ts: seq<Address>)
    requires SameAt(h, h', ts) && Live(h, ts) && Ordered(h, ts)
    ensures Live(h', ts) && Ordered(h', ts)
  {
  }

  // ---------------------------------------------------------------- both containers

  /** The id map and the ordered set hold exactly the same timers. */
  ghost predicate Agree(h: Heap, ts: seq<Address>, active: ActiveMap)
    requires Live(h, ts)
  {
    && (forall i :: 0 <= i < |ts| ==> h[ts[i]].id in active && active[h[ts[i]].id] == ts[i])
    && (forall id :: id in active ==> active[id] in h && active[id] in ts && h[active[id]].id == id)
  }

  /** Every live timer is owned exactly once, by the ordered set or by the expired list. */
  ghost predicate OwnedOnce(h: Heap, ts: seq<Address>, expired: seq<Address>) {
    && NULL !in h
    && (forall a :: a in h <==> a in ts || (a in expired && a != NULL))
    && (forall i :: 0 <= i < |expired| && expired[i] != NULL ==> expired[i] !in ts)
    && (forall i, j :: 0 <= i < j < |expired| && expired[i] != NULL ==> expired[i] != expired[j])
  }

  ghost predicate DistinctIds(h: Heap) {
    forall a, b :: a in h && b in h && h[a].id == h[b].id ==> a == b
  }

  /** The invariant of the containers. */
  ghost predicate Consistent(h: Heap, ts: seq<Address>, active: ActiveMap, expired: seq<Address>) {
    && Live(h, ts) && Ordered(h, ts)
    && Agree(h, ts, active)
    && OwnedOnce(h, ts, expired)
    && DistinctIds(h)
  }

  lemma AgreeInsert(h: Heap, ts: seq<Address>, active: ActiveMap, a: Address, i: nat)
    requires Live(h, ts) && Agree(h, ts, active) && a in h && i <= |ts| && h[a].id !in active
    requires Live(h, InsertAt(ts, i, a)) && forall b :: b in InsertAt(ts, i, a) <==> b in ts || b == a
    ensures Agree(h, InsertAt(ts, i, a), active[h[a].id := a])
  {
    var us := InsertAt(ts, i, a);
    forall k | 0 <= k < |us| ensures h[us[k]].id in active[h[a].id := a] && active[h[a].id := a][h[us[k]].id] == us[k] {
      assert us[k] in ts || us[k] == a;
    }
  }

  lemma AgreeRemove(h: Heap, ts: seq<Address>, active: ActiveMap, i: nat)
    requires Live(h, ts) && Agree(h, ts, active) && i < |ts| && Live(h, RemoveAt(ts, i))
    requires forall b :: b in RemoveAt(ts, i) <==> b in ts && b != ts[i]
    ensures Agree(h, RemoveAt(ts, i), active - {h[ts[i]].id})
  {
    var us := RemoveAt(ts, i);
    forall k | 0 <= k < |us| ensures h[us[k]].id in active - {h[ts[i]].id} && active[h[us[k]].id] == us[k] {
      assert us[k] in ts && us[k] != ts[i];
    }
  }

  lemma OwnedInsert(h: Heap, ts: seq<Address>, expired: seq<Address>, a: Address, t: Timer, us: seq<Address>)
    requires OwnedOnce(h, ts, expired) && a !in h && a != NULL
    requires forall b :: b in us <==> b in ts || b == a
    ensures OwnedOnce(h[a := t], us, expired)
  {
  }

  /** The expired list gives a timer up and the ordered set takes it. */
  lemma OwnedTransfer(h: Heap, h': Heap, ts: seq<Address>, expired: seq<Address>, k: nat, us: seq<Address>)
    requires OwnedOnce(h, ts, expired) && h'.Keys == h.Keys && k < |expired| && expired[k] != NULL
    requires forall b :: b in us <==> b in ts || b == expired[k]
    ensures OwnedOnce(h', us, expired[k := NULL])
  {
    var xs := expired[k := NULL];
    forall a | a in expired && a != NULL && a != expired[k] ensures a in xs {
      var j :| 0 <= j < |expired| && expired[j] == a;
      assert xs[j] == a;
    }
    forall a | a in xs && a != NULL ensures a in expired && a != expired[k] {
      var j :| 0 <= j < |xs| && xs[j] == a;
      assert expired[j] == a;
    }
  }

  lemma OwnedRemove(h: Heap, ts: seq<Address>, expired: seq<Address>, i: nat, us: seq<Address>)
    requires OwnedOnce(h, ts, expired) && i < |ts|
    requires forall b :: b in us <==> b in ts && b != ts[i]
    ensures OwnedOnce(h - {ts[i]}, us, expired)
  {
  }

  // ---------------------------------------------------------------- expiry

  /** How many timers at the front of the ordered set are due. */
  ghost predicate DueCount(h: Heap, ts: seq<Address>, now: int, n: nat)
    requires Live(h, ts)
  {
    && n <= |ts|
    && (forall i :: 0 <= i < n ==> h[ts[i]].expiration <= now)
    && (forall i :: n <= i < |ts| ==> now < h[ts[i]].expiration)
  }

  /** The ids of a list of timers, in order. */
  ghost function Ids(h: Heap, ts: seq<Address>): (ids: seq<TimerId>)
    requires Live(h, ts)
    ensures |ids| == |ts|
    ensures forall i :: 0 <= i < |ts| ==> ids[i] == h[ts[i]].id
  {
    seq(|ts|, i requires 0 <= i < |ts| => h[ts[i]].id)
  }

  /** `ids` are all the timers due at `now`, once each, in order of expiration. */
  ghost predicate IsDueBatch(h: Heap, active: ActiveMap, now: int, ids: seq<TimerId>)
    requires ActiveIn(h, active)
  {
    && (forall id :: id in ids <==> id in active && h[active[id]].expiration <= now)
    && (forall i, j :: 0 <= i < j < |ids| ==>
          ids[i] in active && ids[j] in active && ids[i] != ids[j]
          && h[active[ids[i]]].expiration <= h[active[ids[j]]].expiration)
  }

  lemma DueBatch(h: Heap, ts: seq<Address>, active: ActiveMap, expired: seq<Address>, now: int, n: nat)
    requires Consistent(h, ts, active, expired) && DueCount(h, ts, now, n)
    ensures IsDueBatch(h, active, now, Ids(h, ts)[..n])
  {
    var ids := Ids(h, ts)[..n];
    forall id | id in active && h[active[id]].expiration <= now ensures id in ids {
      var k :| 0 <= k < |ts| && ts[k] == active[id];
      assert ids[k] == id;
    }
    forall i, j | 0 <= i < j < |ids| ensures ids[i] != ids[j] {
      assert Less(h, ts[i], ts[j]);
    }
  }

  // ---------------------------------------------------------------- histories

  const IDLE: int := -1

  /** What is worth remembering: a callback ran in a batch; a timer that had been inserted
      was cancelled, inside a batch or outside any (IDLE). */
  datatype Event = Ran(id: TimerId, batch: int) | Cancelled(id: TimerId, batch: int)

  /** A timer runs at most once per batch, batches are in order, and after a cancellation it
      runs only in the batch that was already executing when the cancellation came. */
  ghost predicate Honest(log: seq<Event>) {
    forall p, q :: 0 <= p < q < |log| && log[p].id == log[q].id && log[q].Ran? ==>
      && (log[p].Ran? ==> log[p].batch < log[q].batch)
      && (log[p].Cancelled? ==> log[p].batch == log[q].batch)
  }

  /** In an honest history a cancelled timer runs at most once more. */
  lemma AtMostOnceMore(log: seq<Event>, p: nat, q: nat, q': nat)
    requires Honest(log) && p < q < |log| && p < q' < |log|
    requires log[p].Cancelled? && log[q].Ran? && log[q'].Ran?
    requires log[p].id == log[q].id == log[q'].id
    ensures q == q' && log[p].batch == log[q].batch
  {
    assert log[p].batch == log[q].batch && log[p].batch == log[q'].batch;
  }

  /** How the history and the queue's sets hang together. `live` are the stored ids, `ids`
      those of the batch that is or was last executed, `ran` those that have run in it. */
  ghost predicate Tracked(log: seq<Event>, live: IdSet, ids: IdSet, canceling: IdSet, batch: nat, ran: IdSet) {
    && Honest(log)
    && (forall p :: 0 <= p < |log| ==> log[p].batch <= batch)
    && (forall p :: 0 <= p < |log| && log[p].Cancelled? ==>
          log[p].id !in live && (log[p].id in ids ==> log[p].id in canceling && log[p].batch == batch))
    && (forall p :: 0 <= p < |log| && log[p].Ran? && log[p].batch == batch ==> log[p].id in ran)
    && (forall id :: id in ids && id in canceling ==> Cancelled(id, batch) in log)
  }

  lemma TrackRun(log: seq<Event>, live: IdSet, ids: IdSet, canceling: IdSet, batch: nat, ran: IdSet, id: TimerId)
    requires Tracked(log, live, ids, canceling, batch, ran) && id in ids && id !in ran
    ensures Tracked(log + [Ran(id, batch)], live, ids, canceling, batch, ran + {id})
  {
    var log' := log + [Ran(id, batch)];
    assert forall p :: 0 <= p < |log| ==> log'[p] == log[p];
  }

  /** A stored timer is cancelled. */
  lemma TrackCancelLive(log: seq<Event>, live: IdSet, ids: IdSet, canceling: IdSet, batch: nat, ran: IdSet,
      id: TimerId, b: int)
    requires Tracked(log, live, ids, canceling, batch, ran) && id !in ids && b <= batch
    ensures Tracked(log + [Cancelled(id, b)], live - {id}, ids, canceling, batch, ran)
  {
    var log' := log + [Cancelled(id, b)];
    assert forall p :: 0 <= p < |log| ==> log'[p] == log[p];
    assert forall e :: e in log ==> e in log';
  }

  /** A timer that is not stored is cancelled while a batch executes. */
  lemma TrackCancelBatch(log: seq<Event>, live: IdSet, ids: IdSet, canceling: IdSet, batch: nat, ran: IdSet,
      id: TimerId)
    requires Tracked(log, live, ids, canceling, batch, ran) && id !in live
    ensures Tracked(log + [Cancelled(id, batch)], live, ids, canceling + {id}, batch, ran)
  {
    var log' := log + [Cancelled(id, batch)];
    assert forall p :: 0 <= p < |log| ==> log'[p] == log[p];
    assert forall e :: e in log ==> e in log';
    assert log'[|log|] == Cancelled(id, batch);
  }

  lemma TrackStart(log: seq<Event>, live: IdSet, ids: IdSet, canceling: IdSet, batch: nat, ran: IdSet, live': IdSet,
      ids': IdSet)
    requires Tracked(log, live, ids, canceling, batch, ran) && canceling == {} && live' <= live && ids' <= live
    ensures Tracked(log, live', ids', canceling, batch + 1, {})
  {
  }

  lemma TrackEnd(log: seq<Event>, live: IdSet, ids: IdSet, canceling: IdSet, batch: nat, ran: IdSet)
    requires Tracked(log, live, ids, canceling, batch, ran)
    ensures Tracked(log, live, {}, {}, batch, ran)
  {
  }

  // ---------------------------------------------------------------- storing and erasing

  lemma FirstAfterInsert(h: Heap, ts: seq<Address>, a: Address, i: nat)
    requires Live(h, ts) && Ordered(h, ts) && a in h && Place(h, ts, a, i)
    ensures ts == [] || h[a].expiration < h[ts[0]].expiration ==> InsertAt(ts, i, a)[0] == a
    ensures InsertAt(ts, i, a)[0] in h
    ensures ts != [] && h[a].expiration >= h[ts[0]].expiration ==>
      h[InsertAt(ts, i, a)[0]].expiration == h[ts[0]].expiration
  {
  }

  lemma FirstAfterRemove(h: Heap, ts: seq<Address>, i: nat)
    requires Live(h, ts) && Ordered(h, ts) && i < |ts|
    ensures RemoveAt(ts, i) != [] ==> RemoveAt(ts, i)[0] in h && h[RemoveAt(ts, i)[0]].expiration >= h[ts[0]].expiration
  {
    if RemoveAt(ts, i) != [] && i == 0 {
      assert Less(h, ts[0], ts[1]);
    }
  }

  /** A timer that is created and not yet stored leaves the containers as they were. */
  lemma NewTimer(h: Heap, ts: seq<Address>, active: ActiveMap, expired: seq<Address>, a: Address, t: Timer)
    requires Consistent(h, ts, active, expired) && a !in h
    requires forall b :: b in h ==> h[b].id != t.id
    ensures SameAt(h, h[a := t], ts)
    ensures Live(h[a := t], ts) && Ordered(h[a := t], ts) && Agree(h[a := t], ts, active)
    ensures DistinctIds(h[a := t]) && a !in ts && t.id !in active
    ensures a != NULL ==> a !in expired
  {
  }

  lemma EraseConsistent(h: Heap, ts: seq<Address>, active: ActiveMap, expired: seq<Address>, i: nat)
    requires Consistent(h, ts, active, expired) && i < |ts|
    ensures Consistent(h - {ts[i]}, RemoveAt(ts, i), active - {h[ts[i]].id}, expired)
    ensures RemoveAt(ts, i) != [] ==> RemoveAt(ts, i)[0] in h - {ts[i]} && h[RemoveAt(ts, i)[0]].expiration >= h[ts[0]].expiration
    ensures ts[i] !in expired
  {
    hide Less;
    RemoveOrdered(h, ts, i);
    AgreeRemove(h, ts, active, i);
    OwnedRemove(h, ts, expired, i, RemoveAt(ts, i));
    FirstAfterRemove(h, ts, i);
    OrderedSame(h, h - {ts[i]}, RemoveAt(ts, i));
  }

  ghost predicate ActiveIn(h: Heap, active: ActiveMap) {
    forall id :: id in active ==> active[id] in h
  }

  lemma ActiveIssued(h: Heap, ts: seq<Address>, active: ActiveMap, xs: seq<Address>, issued: IdSet)
    requires Consistent(h, ts, active, xs) && forall a :: a in h ==> h[a].id in issued
    ensures active.Keys <= issued
  {
    forall id | id in active.Keys ensures id in issued { assert id in active; }
  }

  // ---------------------------------------------------------------- a batch is taken out

  /** `active'` is `active` without the entries for the timers in `gone`. */
  ghost predicate Without(active: ActiveMap, active': ActiveMap, gone: seq<Address>) {
    && (forall id :: id in active' ==> id in active && active'[id] == active[id] && active[id] !in gone)
    && (forall id :: id in active && active[id] !in gone ==> id in active')
  }

  lemma WithoutNext(h: Heap, ts: seq<Address>, active: ActiveMap, active': ActiveMap, i: nat)
    requires Live(h, ts) && Agree(h, ts, active) && i < |ts| && Without(active, active', ts[..i])
    ensures Without(active, active' - {h[ts[i]].id}, ts[..i + 1])
  {
    assert ts[..i + 1] == ts[..i] + [ts[i]];
  }

  lemma ExpireConsistent(h: Heap, ts: seq<Address>, active: ActiveMap, active': ActiveMap, n: nat)
    requires Consistent(h, ts, active, []) && n <= |ts| && Without(active, active', ts[..n])
    ensures Consistent(h, ts[n..], active', ts[..n])
    ensures active'.Keys <= active.Keys
    ensures forall i :: 0 <= i < n ==> h[ts[i]].id in active && h[ts[i]].id !in active'
  {
    forall id | id in active'.Keys ensures id in active.Keys { assert id in active'; }
    var front, back := ts[..n], ts[n..];
    assert Live(h, back) && Ordered(h, back);
    OrderedApart(h, ts, n);
    hide Ordered, Less;
    assert Agree(h, back, active');
    assert OwnedOnce(h, back, front) by {
      assert forall a :: a in ts <==> a in front || a in back;
    }
  }

  /** An ordered list has no entry twice. */
  lemma OrderedApart(h: Heap, ts: seq<Address>, n: nat)
    requires Live(h, ts) && Ordered(h, ts) && n <= |ts|
    ensures forall i, j :: 0 <= i < j < |ts| ==> ts[i] != ts[j]
    ensures forall a :: a in ts <==> a in ts[..n] || a in ts[n..]
    ensures forall a :: a in ts[n..] ==> a !in ts[..n]
  {
    assert forall i, j :: 0 <= i < j < |ts| ==> Less(h, ts[i], ts[j]);
    assert ts == ts[..n] + ts[n..];
  }

  lemma DueFacts(h: Heap, ts: seq<Address>, active: ActiveMap, now: int, n: nat)
    requires Consistent(h, ts, active, []) && DueCount(h, ts, now, n)
    ensures ActiveIn(h, active) && Live(h, ts[..n])
    ensures IsDueBatch(h, active, now, Ids(h, ts[..n]))
    ensures forall i, j :: 0 <= i < j < n ==> h[ts[i]].id != h[ts[j]].id
    ensures forall i :: 0 <= i < n ==> h[ts[i]].id in active && active[h[ts[i]].id] == ts[i]
  {
    DueBatch(h, ts, active, [], now, n);
    assert Ids(h, ts[..n]) == Ids(h, ts)[..n];
    assert forall i, j :: 0 <= i < j < |ts| ==> Less(h, ts[i], ts[j]);
  }

  function Members(ids: seq<TimerId>): IdSet {
    set id | id in ids
  }

  lemma NotDueStay(h: Heap, ts: seq<Address>, active: ActiveMap, active': ActiveMap, xs: seq<Address>,
      due: seq<TimerId>)
    requires Consistent(h, ts, active, []) && Without(active, active', xs) && Live(h, xs) && due == Ids(h, xs)
    ensures active' == active - Members(due)
  {
    forall i | 0 <= i < |xs| ensures due[i] in active && active[due[i]] == xs[i] {
      assert xs[i] in ts;
    }
    forall id | id in active ensures active[id] in xs <==> id in due {
      if active[id] in xs {
        var i :| 0 <= i < |xs| && xs[i] == active[id];
        assert due[i] == id;
      }
    }
    var rest := active - Members(due);
    assert forall id :: id in rest <==> id in active && id !in due;
    assert forall id :: id in active' ==> id in active && active[id] !in xs;
    assert forall id :: id in active' <==> id in rest;
    assert active'.Keys == rest.Keys;
    assert forall id :: id in active' ==> active'[id] == rest[id];
  }

  // ---------------------------------------------------------------- a batch is settled

  ghost predicate Kept(h: Heap, h': Heap, a: Address) {
    a in h && a in h' && h'[a] == h[a]
  }

  ghost predicate SettledAt(h: Heap, h': Heap, active': ActiveMap, a: Address, canceling: IdSet, now: int) {
    && a in h
    && var t := h[a];
       if t.IsRepeated() && t.id !in canceling
       then t.id in active' && active'[t.id] == a && a in h' && h'[a] == t.Restart(now)
       else t.id !in active'
  }

  /** What becomes of a batch: a repeating timer that was not cancelled is stored again, to go
      off one interval after `now`; no other timer of the batch is stored. Timers that were
      stored stay as they are. */
  ghost predicate Settled(h: Heap, h': Heap, active: ActiveMap, active': ActiveMap, expired: seq<Address>,
      canceling: IdSet, now: int) {
    && (forall i :: 0 <= i < |expired| ==> SettledAt(h, h', active', expired[i], canceling, now))
    && (forall id :: id in active ==> id in active' && active'[id] == active[id] && Kept(h, h', active[id]))
    && (forall id :: id in active' ==> id in active || OfBatch(h, expired, id))
  }

  /** One of the timers `xs` has this id. */
  ghost predicate OfBatch(h: Heap, xs: seq<Address>, id: TimerId) {
    exists i :: 0 <= i < |xs| && xs[i] in h && h[xs[i]].id == id
  }

  lemma OfBatchIds(h: Heap, h': Heap, xs: seq<Address>, due: seq<TimerId>, id: TimerId)
    requires Live(h, xs) && due == Ids(h, xs) && SameAt(h, h', xs) && OfBatch(h', xs, id)
    ensures id in due
  {
    var i :| 0 <= i < |xs| && xs[i] in h' && h'[xs[i]].id == id;
    assert due[i] == id;
  }

  lemma RestartConsistent(h: Heap, ts: seq<Address>, active: ActiveMap, expired: seq<Address>, k: nat, now: int)
    requires Consistent(h, ts, active, expired) && k < |expired| && expired[k] in h
    ensures var h' := h[expired[k] := h[expired[k]].Restart(now)];
      && Live(h', ts) && Ordered(h', ts) && Agree(h', ts, active) && DistinctIds(h')
    ensures expired[k] !in ts && expired[k] != NULL && NULL !in h
  {
  }

  /** Clearing the expired list destroys the timers it still owns. */
  lemma ClearConsistent(h: Heap, ts: seq<Address>, active: ActiveMap, expired: seq<Address>)
    requires Consistent(h, ts, active, expired)
    ensures Consistent(h - (set a | a in expired), ts, active, [])
    ensures forall id :: id in active ==> Kept(h, h - (set a | a in expired), active[id])
  {
    var h' := h - (set a | a in expired);
    forall i | 0 <= i < |ts| ensures ts[i] in h' {
      assert ts[i] in h;
    }
    OrderedSame(h, h', ts);
  }

  lemma MicrosPositive(seconds: real)
    requires seconds > 0.0
    ensures Micros(seconds) >= 0
  {
  }

  lemma SettledCleared(h: Heap, h': Heap, h'': Heap, active: ActiveMap, active': ActiveMap, xs: seq<Address>,
      canceling: IdSet, now: int)
    requires Settled(h, h', active, active', xs, canceling, now)
    requires forall id :: id in active' ==> Kept(h', h'', active'[id])
    ensures Settled(h, h'', active, active', xs, canceling, now)
  {
  }

  /** The state of ResetTimer's loop: the first `i` timers of the batch are settled. */
  ghost predicate Progress(h: Heap, active: ActiveMap, xs: seq<Address>, h': Heap, active': ActiveMap,
      xs': seq<Address>, canceling: IdSet, now: int, i: nat) {
    && i <= |xs| == |xs'|
    && (forall j :: 0 <= j < i ==> SettledAt(h, h', active', xs[j], canceling, now))
    && (forall j :: i <= j < |xs| ==> xs'[j] == xs[j] && Kept(h, h', xs[j]) && h[xs[j]].id !in active')
    && (forall id :: id in active ==> id in active' && active'[id] == active[id] && Kept(h, h', active[id]))
    && (forall id :: id in active' ==> id in active || OfBatch(h, xs, id))
  }

  lemma ProgressStart(h: Heap, ts: seq<Address>, active: ActiveMap, xs: seq<Address>, ids: IdSet, canceling: IdSet,
      now: int)
    requires Consistent(h, ts, active, xs) && Live(h, xs) && active.Keys !! ids
    requires forall i :: 0 <= i < |xs| ==> h[xs[i]].id in ids
    ensures Progress(h, active, xs, h, active, xs, canceling, now, 0)
  {
  }

  lemma ProgressNow(h: Heap, active: ActiveMap, xs: seq<Address>, h': Heap, active': ActiveMap, xs': seq<Address>,
      canceling: IdSet, now: int, i: nat)
    requires Progress(h, active, xs, h', active', xs', canceling, now, i) && i < |xs|
    ensures xs'[i] == xs[i] && xs[i] in h && xs[i] in h' && h'[xs[i]] == h[xs[i]] && h[xs[i]].id !in active'
  {
  }

  lemma ProgressReinsert(h: Heap, ts: seq<Address>, active: ActiveMap, xs: seq<Address>, h': Heap, active': ActiveMap,
      xs': seq<Address>, canceling: IdSet, now: int, i: nat)
    requires Progress(h, active, xs, h', active', xs', canceling, now, i) && i < |xs|
    requires Consistent(h, ts, active, xs) && Live(h, xs)
    requires h[xs[i]].IsRepeated() && h[xs[i]].id !in canceling
    ensures Progress(h, active, xs, h'[xs[i] := h[xs[i]].Restart(now)], active'[h[xs[i]].id := xs[i]], xs'[i := NULL], canceling, now, i + 1)
  {
    assert OfBatch(h, xs, h[xs[i]].id);
  }

  lemma ProgressSkip(h: Heap, active: ActiveMap, xs: seq<Address>, h': Heap, active': ActiveMap, xs': seq<Address>,
      canceling: IdSet, now: int, i: nat)
    requires Progress(h, active, xs, h', active', xs', canceling, now, i) && i < |xs|
    requires !(h[xs[i]].IsRepeated() && h[xs[i]].id !in canceling)
    ensures Progress(h, active, xs, h', active', xs', canceling, now, i + 1)
  {
  }

  lemma ProgressEnd(h: Heap, active: ActiveMap, xs: seq<Address>, h': Heap, active': ActiveMap, xs': seq<Address>,
      canceling: IdSet, now: int)
    requires Progress(h, active, xs, h', active', xs', canceling, now, |xs|)
    ensures Settled(h, h', active, active', xs, canceling, now)
  {
  }

  // ---------------------------------------------------------------- the history goes on

  /** The ids of the callbacks that ran, in order. */
  ghost function Runs(log: seq<Event>): seq<TimerId> {
    if log == [] then [] else
      var rest := Runs(log[..|log| - 1]);
      if log[|log| - 1].Ran? then rest + [log[|log| - 1].id] else rest
  }

  lemma RunsSnoc(log: seq<Event>, e: Event)
    ensures Runs(log + [e]) == Runs(log) + (if e.Ran? then [e.id] else [])
  {
    assert (log + [e])[..|log|] == log;
  }

  lemma TrackAdd(log: seq<Event>, live: IdSet, ids: IdSet, canceling: IdSet, batch: nat, ran: IdSet, id: TimerId)
    requires Tracked(log, live, ids, canceling, batch, ran)
    requires forall p :: 0 <= p < |log| && log[p].Cancelled? ==> log[p].id != id
    ensures Tracked(log, live + {id}, ids, canceling, batch, ran)
  {
  }

  lemma TrackCancelUnknown(log: seq<Event>, live: IdSet, ids: IdSet, canceling: IdSet, batch: nat, ran: IdSet,
      id: TimerId)
    requires Tracked(log, live, ids, canceling, batch, ran) && id !in ids
    ensures Tracked(log, live, ids, canceling + {id}, batch, ran)
  {
  }

  lemma TrackReinsert(log: seq<Event>, live: IdSet, ids: IdSet, canceling: IdSet, batch: nat, ran: IdSet, id: TimerId)
    requires Tracked(log, live, ids, canceling, batch, ran) && id in ids && id !in canceling
    ensures Tracked(log, live + {id}, ids, canceling, batch, ran)
  {
  }

  lemma TrackCancels(log: seq<Event>, live: IdSet, ids: IdSet, canceling: IdSet, batch: nat, ran: IdSet)
    requires Tracked(log, live, ids, canceling, batch, ran)
    ensures forall id :: id in ids ==> (id in canceling <==> Cancelled(id, batch) in log)
  {
  }

  // ---------------------------------------------------------------- timers that are not due

  /** Of the timers stored in `active`, those cancelled in the batch are gone and the others
      are as they were. */
  ghost predicate Survive(h: Heap, active: ActiveMap, h': Heap, active': ActiveMap, log: seq<Event>, batch: nat) {
    forall id :: id in active ==>
      if Cancelled(id, batch) in log then id !in active'
      else id in active' && active'[id] == active[id] && Kept(h, h', active[id])
  }

  lemma SurviveStart(h: Heap, ts: seq<Address>, active: ActiveMap, xs: seq<Address>, log: seq<Event>, ids: IdSet,
      canceling: IdSet, batch: nat, ran: IdSet)
    requires Consistent(h, ts, active, xs) && Tracked(log, active.Keys, ids, canceling, batch, ran)
    ensures Survive(h, active, h, active, log, batch)
  {
  }

  lemma SurviveRan(h: Heap, active: ActiveMap, h': Heap, active': ActiveMap, log: seq<Event>, batch: nat, id: TimerId)
    requires Survive(h, active, h', active', log, batch)
    ensures Survive(h, active, h', active', log + [Ran(id, batch)], batch)
  {
  }

  lemma SurviveAdd(h: Heap, active: ActiveMap, h': Heap, active': ActiveMap, log: seq<Event>, batch: nat, a: Address,
      t: Timer)
    requires Survive(h, active, h', active', log, batch) && a !in h' && t.id !in active
    ensures Survive(h, active, h'[a := t], active'[t.id := a], log, batch)
  {
  }

  lemma SurviveCancel(h: Heap, active: ActiveMap, h': Heap, ts: seq<Address>, active': ActiveMap, log: seq<Event>,
      batch: nat, id: TimerId)
    requires Survive(h, active, h', active', log, batch) && Live(h', ts) && Agree(h', ts, active')
    ensures var h'' := if id in active' then h' - {active'[id]} else h';
      && Survive(h, active, h'', active' - {id}, log + [Cancelled(id, batch)], batch)
      && (id !in active ==> Survive(h, active, h'', active' - {id}, log, batch))
  {
    var log' := log + [Cancelled(id, batch)];
    assert forall e :: e in log' <==> e in log || e == Cancelled(id, batch);
  }

  lemma SurviveSettled(h: Heap, h': Heap, h'': Heap, active: ActiveMap, active': ActiveMap, active'': ActiveMap,
      xs: seq<Address>, canceling: IdSet, now: int, log: seq<Event>, batch: nat, id: TimerId)
    requires Survive(h, active, h', active', log, batch) && Settled(h', h'', active', active'', xs, canceling, now)
    requires id in active && Cancelled(id, batch) !in log
    ensures id in active'' && active''[id] == active[id] && Kept(h, h'', active[id])
  {
  }
}
