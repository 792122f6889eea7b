/** The life of a server's connections: a base loop that owns the table of connections and
    I/O loops that own the connections, talking through their functor queues. Actions of
    different threads interleave in any order. A loop polls, dispatches the channels that were
    ready one after the other, and then runs functors. */
module TcpServers {
  import opened ConnectionStates
  import E = EpollPollers

  /** A connection's number; its name is the server's name, `#` and this number. */
  type Conn = nat

  type Loop = nat

  /** The loop of the acceptor and of the table. Connections may live in it as well. */
  const BASE: Loop := 0

  /** A connection's channel, as its poller and the kernel know it. */
  datatype Watch = Watch(
    index: E.Status,
    inKernel: bool,     // the kernel watches the descriptor: at least for errors and hang-ups
    wanted: bool,       // ... and for reading or writing, the mask is not empty
    illegal: nat        // epoll_ctl calls that the kernel refused; the first ends the process
  )

  const UNKNOWN: Watch := Watch(E.New, false, false, 0)

  /** A connection, with a count of what has happened to it. */
  datatype Record = Record(
    state: ConnectionState,
    loop: Loop,
    watch: Watch,
    established: nat,   // EstablishConnection has run
    closes: nat,        // HandleClose has run
    erases: nat,        // RemoveConnectionInLoop has run
    misses: nat,        // ... and found no entry to erase
    removals: nat,      // DestroyConnection has removed the channel
    idle: bool,         // the kernel was not watching when the connection was first closed
    pauses: nat         // how often the open connection stopped wanting events
  )

  /** A functor for a loop. */
  datatype Task =
    | Establish(c: Conn)
    | ForceClose(c: Conn)
    | Remove(c: Conn)
    | Destroy(c: Conn)

  /** A channel that Poll has reported and that is still to be dispatched: `readable` while its
      read callback is due, `hangUp` if it was reported as hung up and not as readable data. */
  datatype Ready = Ready(c: Conn, readable: bool, hangUp: bool)

  datatype Server = Server(
    records: map<Conn, Record>,
    connections: set<Conn>,           // connections_
    connSequence: nat,
    queues: map<Loop, seq<Task>>,
    active: map<Loop, seq<Ready>>,    // active_channels_, as far as not dispatched
    closed: map<Loop, set<Conn>>      // what was closed in each loop since it last polled
  )

  function Queue(s: Server, l: Loop): seq<Task> {
    if l in s.queues then s.queues[l] else []
  }

  function Active(s: Server, l: Loop): seq<Ready> {
    if l in s.active then s.active[l] else []
  }

  function ClosedIn(s: Server, l: Loop): set<Conn> {
    if l in s.closed then s.closed[l] else {}
  }

  predicate IsOpen(r: Record) { r.state == Connected || r.state == DisConnecting }

  // ---------------------------------------------------------------- channels

  /** Channel::Update with an empty or a non-empty mask: the call that UpdateChannel picks. */
  function Updated(w: Watch, wants: bool): Watch {
    var op := E.UpdateOperation(w.index, !wants);
    if op == E.EpollCtlAdd <==> !w.inKernel
    then Watch(if op == E.EpollCtlDel then E.Deleted else E.Added, op != E.EpollCtlDel, wants, w.illegal)
    else w.(index := if op == E.EpollCtlDel then E.Deleted else E.Added, wanted := wants, illegal := w.illegal + 1)
  }

  /** Channel::Remove. The status stays what it was. */
  function Unregistered(w: Watch): Watch {
    if w.index != E.Added then w
    else if w.inKernel then w.(inKernel := false)
    else w.(illegal := w.illegal + 1)
  }

  // ---------------------------------------------------------------- what the loops do

  function Put(s: Server, c: Conn, r: Record): Server {
    s.(records := s.records[c := r])
  }

  function Enqueue(s: Server, l: Loop, t: Task): Server {
    s.(queues := s.queues[l := Queue(s, l) + [t]])
  }

  /** Where a task runs. */
  function Home(s: Server, t: Task): Loop
    requires t.c in s.records
  {
    if t.Remove? then BASE else s.records[t.c].loop
  }

  function Rank(t: Task): nat {
    match t
    case Establish(_) => 0
    case Destroy(_) => 0
    case Remove(_) => 1
    case ForceClose(_) => 3
  }

  /** RunInLoop from the thread of loop `from`: at once in the same thread, else queued. */
  function RunInLoop(s: Server, from: Loop, t: Task): Server
    requires t.c in s.records
    decreases Rank(t), 1
  {
    if Home(s, t) == from then Execute(s, t) else Enqueue(s, Home(s, t), t)
  }

  /** HandleClose up to the callback: its assertion on the state is compiled out. */
  function Closed(r: Record): Record {
    r.(state := DisConnected, watch := Updated(r.watch, false), closes := r.closes + 1,
       idle := if r.closes == 0 then !r.watch.inKernel else r.idle)
  }

  /** It is remembered that `c` was closed in its loop's round. */
  function Noted(s: Server, c: Conn): Server
    requires c in s.records
  {
    var l := s.records[c].loop;
    s.(closed := s.closed[l := ClosedIn(s, l) + {c}])
  }

  /** HandleClose, in the connection's loop. */
  function HandleClose(s: Server, c: Conn): Server
    requires c in s.records
    decreases 2, 0
  {
    RunInLoop(Put(Noted(s, c), c, Closed(s.records[c])), s.records[c].loop, Remove(c))
  }

  function Opened(r: Record): Record {
    r.(state := Connected, watch := Updated(r.watch, true), established := r.established + 1)
  }

  function Erased(r: Record, hit: bool): Record {
    r.(erases := r.erases + 1, misses := r.misses + if hit then 0 else 1)
  }

  /** DestroyConnection. */
  function Destroyed(r: Record): Record {
    var r1 := if r.state != DisConnected then r.(state := DisConnected, watch := Updated(r.watch, false)) else r;
    r1.(watch := Unregistered(r1.watch), removals := r.removals + 1)
  }

  /** Runs a task in its thread. */
  function Execute(s: Server, t: Task): Server
    requires t.c in s.records
    decreases Rank(t), 0
  {
    var r := s.records[t.c];
    match t
    case Establish(c) => Put(s, c, Opened(r))
    case ForceClose(c) => if IsOpen(r) then HandleClose(s, c) else s
    case Remove(c) =>
      RunInLoop(Put(s, c, Erased(r, c in s.connections)).(connections := s.connections - {c}), BASE, Destroy(c))
    case Destroy(c) => Put(s, c, Destroyed(r))
  }

  datatype Action =
    | Accept(loop: Loop)                          // NewConnection, for a connection in this loop
    | RunTask(loop: Loop)                         // a loop runs the first functor in its queue
    | Poll(loop: Loop, ready: seq<Ready>)         // Poll returns
    | ReadEvent(loop: Loop, eof: bool)            // the read callback of the channel being dispatched
    | HangUp(loop: Loop)                          // the rest of that dispatch
    | ToggleInterest(c: Conn)                     // the mask becomes empty, or is so no longer
    | RequestShutDown(c: Conn)                    // any thread
    | RequestForceClose(c: Conn, inLoop: bool)    // the connection's loop thread, or another

  /** The kernel reports descriptors that it watches, each once; readable ones only if that was
      asked for. */
  predicate Reportable(s: Server, l: Loop, ready: seq<Ready>) {
    && (forall i :: 0 <= i < |ready| ==>
          && ready[i].c in s.records && s.records[ready[i].c].loop == l && s.records[ready[i].c].watch.inKernel
          && (ready[i].readable ==> s.records[ready[i].c].watch.wanted))
    && (forall i, j :: 0 <= i < j < |ready| ==> ready[i].c != ready[j].c)
  }

  predicate Enabled(s: Server, a: Action) {
    match a
    case Accept(_) => true
    // functors run after the last channel has been dispatched
    case RunTask(l) => Queue(s, l) != [] && Active(s, l) == []
    case Poll(l, ready) => Active(s, l) == [] && Reportable(s, l, ready)
    case ReadEvent(l, _) => Active(s, l) != [] && Active(s, l)[0].readable
    case HangUp(l) => Active(s, l) != [] && !Active(s, l)[0].readable
    // StartRead, StopRead, sending and writing; none of them acts on a closed connection
    case ToggleInterest(c) => c in s.records && IsOpen(s.records[c])
    case RequestShutDown(c) => c in s.records
    case RequestForceClose(c, _) => c in s.records
  }

  /** The first task leaves the queue. */
  function Pop(s: Server, l: Loop): Server
    requires Queue(s, l) != []
  {
    s.(queues := s.queues[l := Queue(s, l)[1..]])
  }

  predicate TasksKnown(s: Server) {
    forall l, i :: l in s.queues && 0 <= i < |s.queues[l]| ==>
      s.queues[l][i].c in s.records && Home(s, s.queues[l][i]) == l
  }

  /** What is to be dispatched are the channels of established connections. In an I/O loop a
      channel is removed by a functor, so none of them has been. */
  predicate ActiveKnown(s: Server) {
    forall l, i :: l in s.active && 0 <= i < |s.active[l]| ==>
      && s.active[l][i].c in s.records && s.records[s.active[l][i].c].loop == l
      && s.records[s.active[l][i].c].established > 0
      && (l != BASE ==> s.records[s.active[l][i].c].removals == 0)
  }

  /** A new connection is in the table, and nothing else has happened to it. */
  function WithNew(s: Server, l: Loop): Server {
    s.(records := s.records[s.connSequence := Record(Connecting, l, UNKNOWN, 0, 0, 0, 0, 0, false, 0)],
       connections := s.connections + {s.connSequence}, connSequence := s.connSequence + 1)
  }

  /** The read part of the dispatch under way is done. */
  function ReadDone(s: Server, l: Loop): Server
    requires Active(s, l) != []
  {
    var ready := Active(s, l);
    s.(active := s.active[l := [ready[0].(readable := false)] + ready[1..]])
  }

  /** The dispatch under way is done. */
  function Dispatched(s: Server, l: Loop): Server
    requires Active(s, l) != []
  {
    s.(active := s.active[l := Active(s, l)[1..]])
  }

  function Toggled(r: Record): Record {
    r.(watch := Updated(r.watch, !r.watch.wanted), pauses := r.pauses + if r.watch.wanted then 1 else 0)
  }

  function Next(s: Server, a: Action): Server
    requires Enabled(s, a) && TasksKnown(s) && ActiveKnown(s)
  {
    match a
    case Accept(l) => RunInLoop(WithNew(s, l), BASE, Establish(s.connSequence))
    case RunTask(l) => Execute(Pop(s, l), Queue(s, l)[0])
    case Poll(l, ready) => s.(active := s.active[l := ready], closed := s.closed[l := {}])
    case ReadEvent(l, eof) =>
      if eof then HandleClose(ReadDone(s, l), Active(s, l)[0].c) else ReadDone(s, l)
    case HangUp(l) =>
      if Active(s, l)[0].hangUp then HandleClose(Dispatched(s, l), Active(s, l)[0].c) else Dispatched(s, l)
    case ToggleInterest(c) =>
      Put(s, c, Toggled(s.records[c]))
    case RequestShutDown(c) =>
      var r := s.records[c];
      if r.state == Connected then Put(s, c, r.(state := DisConnecting)) else s
    case RequestForceClose(c, inLoop) =>
      if !IsOpen(s.records[c]) then s
      else if inLoop then Execute(s, ForceClose(c)) else Enqueue(s, s.records[c].loop, ForceClose(c))
  }

  // ---------------------------------------------------------------- the books of a connection

  datatype Hand = Empty | Holding(task: Task)

  /** How often a task is on its way: in its queue, or in the hand of the thread running it. */
  ghost function Pending(s: Server, t: Task, hand: Hand): nat
    requires t.c in s.records
  {
    multiset(Queue(s, Home(s, t)))[t] + (if hand == Holding(t) then 1 else 0)
  }

  /** Every close, erase and removal is accounted for, in whatever order things happened. */
  ghost predicate Balanced(s: Server, c: Conn, hand: Hand)
    requires c in s.records
  {
    var r := s.records[c];
    && r.established + Pending(s, Establish(c), hand) == 1
    && r.closes == Pending(s, Remove(c), hand) + r.erases
    && r.erases == Pending(s, Destroy(c), hand) + r.removals
    && r.misses == (if r.erases == 0 then 0 else r.erases - 1)
    && (c in s.connections <==> r.erases == 0)
    && (r.state == Connecting <==> r.established == 0)
    && (r.established == 0 ==> r.closes == 0)
    && (r.state == DisConnected <==> r.closes > 0)
    // what a close in the base loop asks for is done at once
    && (r.loop == BASE ==> Pending(s, Remove(c), Empty) == 0 && Pending(s, Destroy(c), Empty) == 0)
  }

  /** How often the channel's status has been turned over since it was last watched: by closes,
      and by the pause before the first one. */
  function Turnovers(r: Record): nat {
    r.closes + if r.idle then 1 else 0
  }

  /** The channel of a closed connection in an I/O loop: every close turns the status over, the
      first removal takes the descriptor out of the kernel, and every further removal of a
      channel marked as added is an illegal call. */
  ghost predicate ClosedInIo(r: Record) {
    && (r.watch.index == E.Added <==> Turnovers(r) % 2 == 0)
    && (r.watch.inKernel <==> r.watch.index == E.Added && r.removals == 0)
    && r.watch.illegal == (if r.watch.index == E.Added && r.removals > 0 then r.removals - 1 else 0)
  }

  /** The channel of a closed connection in the base loop, where every close is followed by its
      removal: the third turnover meets a channel marked as added that is out of the kernel. */
  ghost predicate ClosedInBase(r: Record) {
    && (Turnovers(r) == 1 ==> r.watch.index == E.Deleted && !r.watch.inKernel)
    && (Turnovers(r) == 2 ==> r.watch.index == E.Added && (r.watch.inKernel <==> r.removals < r.closes))
    && (r.watch.illegal > 0 <==> Turnovers(r) >= 3)
  }

  /** The channel: an open connection is watched exactly when it wants events. */
  ghost predicate Watched(r: Record) {
    && (r.established == 0 ==> r.watch == UNKNOWN && r.closes == 0)
    && (r.established > 0 ==> r.watch.index != E.New)
    && (r.idle ==> r.closes > 0 && r.pauses > 0)
    && (r.pauses == 0 && r.closes == 0 && r.established > 0 ==> r.watch.inKernel)
    && (r.closes == 0 ==> r.removals == 0)
    && (r.closes == 0 && r.established > 0 ==>
          r.watch.wanted == r.watch.inKernel == (r.watch.index == E.Added) && r.watch.illegal == 0)
    && (r.closes > 0 ==> if r.loop == BASE then ClosedInBase(r) else ClosedInIo(r))
  }

  ghost predicate Inv(s: Server, hand: Hand) {
    && TasksKnown(s)
    && (hand.Holding? ==> hand.task.c in s.records)
    && (forall c: Conn :: c in s.records <==> c < s.connSequence)
    && (forall c :: c in s.records ==> Balanced(s, c, hand))
    && (forall c :: c in s.records ==> Watched(s.records[c]))
  }

  /** One queue is replaced. */
  lemma QueuePut(s: Server, s': Server, l: Loop, q: seq<Task>, m: Loop)
    requires s'.queues == s.queues[l := q]
    ensures Queue(s', m) == if m == l then q else Queue(s, m)
  {
  }

  lemma CountSnoc(q: seq<Task>, t: Task, u: Task)
    ensures multiset(q + [t])[u] == multiset(q)[u] + if t == u then 1 else 0
  {
    assert multiset(q + [t]) == multiset(q) + multiset{t};
  }

  lemma CountFirst(q: seq<Task>, u: Task)
    requires q != []
    ensures multiset(q)[u] == multiset(q[1..])[u] + if q[0] == u then 1 else 0
  {
    assert q == [q[0]] + q[1..];
    assert multiset(q) == multiset{q[0]} + multiset(q[1..]);
  }

  lemma {:induction false} PendingEnqueue(s: Server, t: Task, u: Task)
    requires t.c in s.records && u.c in s.records
    ensures Pending(Enqueue(s, Home(s, t), t), u, Empty) == Pending(s, u, Holding(t))
    ensures Pending(s, u, Holding(t)) == Pending(s, u, Empty) + if t == u then 1 else 0
  {
    hide Queue;
    var l := Home(s, t);
    QueuePut(s, Enqueue(s, l, t), l, Queue(s, l) + [t], Home(s, u));
    CountSnoc(Queue(s, l), t, u);
  }

  lemma {:induction false} KnownEnqueue(s: Server, t: Task)
    requires TasksKnown(s) && t.c in s.records
    ensures TasksKnown(Enqueue(s, Home(s, t), t))
  {
  }

  lemma {:induction false} EnqueueInv(s: Server, t: Task)
    requires Inv(s, Holding(t)) && (t.Remove? || t.Destroy? ==> s.records[t.c].loop != BASE)
    ensures Inv(Enqueue(s, Home(s, t), t), Empty)
  {
    hide Pending, TasksKnown;
    var s' := Enqueue(s, Home(s, t), t);
    KnownEnqueue(s, t);
    forall c | c in s'.records ensures Balanced(s', c, Empty) {
      PendingEnqueue(s, t, Establish(c));
      PendingEnqueue(s, t, Remove(c));
      PendingEnqueue(s, t, Destroy(c));
    }
  }

  lemma {:induction false} PendingPop(s: Server, l: Loop, u: Task)
    requires Queue(s, l) != [] && TasksKnown(s) && u.c in s.records
    ensures Pending(Pop(s, l), u, Holding(Queue(s, l)[0])) == Pending(s, u, Empty) >= Pending(Pop(s, l), u, Empty)
  {
    KnownFirst(s, l);
    hide Queue, TasksKnown;
    QueuePut(s, Pop(s, l), l, Queue(s, l)[1..], Home(s, u));
    CountFirst(Queue(s, l), u);
  }

  lemma {:induction false} KnownFirst(s: Server, l: Loop)
    requires Queue(s, l) != [] && TasksKnown(s)
    ensures Queue(s, l)[0].c in s.records && Home(s, Queue(s, l)[0]) == l
  {
  }

  lemma {:induction false} KnownPop(s: Server, l: Loop)
    requires Queue(s, l) != [] && TasksKnown(s)
    ensures TasksKnown(Pop(s, l)) && Queue(s, l)[0].c in s.records
  {
  }

  lemma {:induction false} PopInv(s: Server, l: Loop)
    requires Inv(s, Empty) && Queue(s, l) != []
    ensures Inv(Pop(s, l), Holding(Queue(s, l)[0]))
  {
    hide Pending, TasksKnown, Queue;
    var s', t := Pop(s, l), Queue(s, l)[0];
    KnownPop(s, l);
    forall c | c in s'.records ensures Balanced(s', c, Holding(t)) {
      PendingPop(s, l, Establish(c));
      PendingPop(s, l, Remove(c));
      PendingPop(s, l, Destroy(c));
    }
  }

  lemma {:induction false} KnownPut(s: Server, s': Server, c: Conn, r: Record)
    requires TasksKnown(s) && c in s.records && r.loop == s.records[c].loop
    requires s'.records == s.records[c := r] && s'.queues == s.queues
    ensures TasksKnown(s')
  {
  }

  /** A task in hand matters to its own connection only. */
  lemma {:induction false} HandOther(s: Server, c: Conn, t: Task)
    requires c in s.records && (c != t.c || t.ForceClose?)
    ensures Balanced(s, c, Holding(t)) <==> Balanced(s, c, Empty)
  {
  }

  /** One step on connection `c` that trades the task in hand for another one. */
  lemma {:induction false} TradeInv(s: Server, s': Server, c: Conn, r: Record, hand: Hand, hand': Hand)
    requires Inv(s, hand) && c in s.records && r.loop == s.records[c].loop
    requires s'.records == s.records[c := r] && s'.queues == s.queues && s'.connSequence == s.connSequence
    requires forall d :: d != c ==> (d in s'.connections <==> d in s.connections)
    requires (hand.Holding? ==> hand.task.c == c) && (hand'.Holding? ==> hand'.task.c == c)
    requires Balanced(s', c, hand') && Watched(r)
    ensures Inv(s', hand')
  {
    hide Balanced, TasksKnown, Watched;
    KnownPut(s, s', c, r);
    forall d | d in s'.records && d != c ensures Balanced(s', d, hand') {
      OtherBalanced(s, s', c, d, hand, hand');
    }
  }

  lemma {:induction false} OtherBalanced(s: Server, s': Server, c: Conn, d: Conn, hand: Hand, hand': Hand)
    requires d != c && d in s.records && Balanced(s, d, hand)
    requires d in s'.records && s'.records[d] == s.records[d] && s'.queues == s.queues
    requires d in s'.connections <==> d in s.connections
    requires (hand.Holding? ==> hand.task.c == c) && (hand'.Holding? ==> hand'.task.c == c)
    ensures Balanced(s', d, hand')
  {
  }

  lemma {:induction false} RunInLoopInv(s: Server, from: Loop, t: Task)
    requires Inv(s, Holding(t)) && (t.Remove? || t.Destroy? ==> s.records[t.c].loop != BASE || from == BASE)
    ensures Inv(RunInLoop(s, from, t), Empty)
    decreases Rank(t), 1
  {
    hide Balanced, TasksKnown, Watched;
    if Home(s, t) == from {
      ExecuteInv(s, t);
    } else {
      EnqueueInv(s, t);
    }
  }

  lemma {:induction false} HandleCloseInv(s: Server, c: Conn)
    requires Inv(s, Empty) && c in s.records && s.records[c].established > 0
    requires s.records[c].loop != BASE ==> s.records[c].removals == 0
    ensures Inv(HandleClose(s, c), Empty)
    decreases 2, 0
  {
    hide Balanced, TasksKnown, Watched, Closed;
    var r := s.records[c];
    BalancedClose(s, c);
    WatchedClose(s, c);
    TradeInv(s, Put(Noted(s, c), c, Closed(r)), c, Closed(r), Empty, Holding(Remove(c)));
    RunInLoopInv(Put(Noted(s, c), c, Closed(r)), r.loop, Remove(c));
  }

  lemma {:induction false} BalancedClose(s: Server, c: Conn)
    requires c in s.records && Balanced(s, c, Empty) && s.records[c].established > 0
    ensures Balanced(Put(Noted(s, c), c, Closed(s.records[c])), c, Holding(Remove(c)))
    ensures Closed(s.records[c]).loop == s.records[c].loop
  {
    hide Updated;
  }

  /** A close takes the descriptor out of the kernel, or puts it in if it was not there. */
  lemma {:induction false} WatchedClose(s: Server, c: Conn)
    requires c in s.records && Balanced(s, c, Empty) && s.records[c].established > 0 && Watched(s.records[c])
    requires s.records[c].loop != BASE ==> s.records[c].removals == 0
    ensures Watched(Closed(s.records[c]))
  {
    var r := s.records[c];
    assert r.loop == BASE ==> r.removals == r.closes;
    hide Balanced, Pending;
    if r.loop == BASE {
      ClosedBase(r);
    } else {
      ClosedIo(r);
    }
  }

  lemma ClosedIo(r: Record)
    requires Watched(r) && r.established > 0 && r.loop != BASE && r.removals == 0
    ensures Watched(Closed(r))
  {
  }

  lemma ClosedBase(r: Record)
    requires Watched(r) && r.established > 0 && r.loop == BASE && r.removals == r.closes
    ensures Watched(Closed(r))
  {
  }

  lemma {:induction false} BalancedEstablish(s: Server, c: Conn)
    requires c in s.records && Balanced(s, c, Holding(Establish(c))) && Watched(s.records[c])
    ensures s.records[c].state == Connecting && Balanced(Put(s, c, Opened(s.records[c])), c, Empty)
    ensures Watched(Opened(s.records[c])) && Opened(s.records[c]).loop == s.records[c].loop
  {
  }

  lemma {:induction false} BalancedRemove(s: Server, c: Conn)
    requires c in s.records && Balanced(s, c, Holding(Remove(c))) && Watched(s.records[c])
    ensures var r' := Erased(s.records[c], c in s.connections);
      && Balanced(Put(s, c, r').(connections := s.connections - {c}), c, Holding(Destroy(c)))
      && Watched(r') && r'.loop == s.records[c].loop
  {
    hide Watched;
    WatchedErase(s.records[c], c in s.connections);
  }

  lemma WatchedErase(r: Record, hit: bool)
    requires Watched(r)
    ensures Watched(Erased(r, hit))
  {
  }

  lemma {:induction false} BalancedDestroy(s: Server, c: Conn)
    requires c in s.records && Balanced(s, c, Holding(Destroy(c))) && Watched(s.records[c])
    ensures s.records[c].established == 1 && s.records[c].state == DisConnected
    ensures Balanced(Put(s, c, Destroyed(s.records[c])), c, Empty)
    ensures Watched(Destroyed(s.records[c])) && Destroyed(s.records[c]).loop == s.records[c].loop
  {
    hide Watched, Updated, Unregistered;
    WatchedDestroy(s.records[c]);
  }

  lemma WatchedDestroy(r: Record)
    requires Watched(r) && r.state == DisConnected && r.closes > 0 && (r.loop == BASE ==> r.closes == r.removals + 1)
    ensures Watched(Destroyed(r))
  {
  }

  lemma {:induction false} ExecuteInv(s: Server, t: Task)
    requires Inv(s, Holding(t))
    ensures Inv(Execute(s, t), Empty)
    decreases Rank(t), 0
  {
    hide Balanced, TasksKnown, Watched, Opened, Erased, Destroyed;
    var r := s.records[t.c];
    match t
    case Establish(c) =>
      BalancedEstablish(s, c);
      TradeInv(s, Put(s, c, Opened(r)), c, Opened(r), Holding(t), Empty);
    case ForceClose(c) =>
      HandOther(s, c, t);
      assert s.records == s.records[c := r];
      TradeInv(s, s, c, r, Holding(t), Empty);
      if IsOpen(r) {
        OpenEstablished(s, c);
        HandleCloseInv(s, c);
      }
    case Remove(c) =>
      var r' := Erased(r, c in s.connections);
      var s' := Put(s, c, r').(connections := s.connections - {c});
      BalancedRemove(s, c);
      TradeInv(s, s', c, r', Holding(t), Holding(Destroy(c)));
      RunInLoopInv(s', BASE, Destroy(c));
    case Destroy(c) =>
      BalancedDestroy(s, c);
      TradeInv(s, Put(s, c, Destroyed(r)), c, Destroyed(r), Holding(t), Empty);
  }

  lemma {:induction false} OpenEstablished(s: Server, c: Conn)
    requires c in s.records && Balanced(s, c, Empty) && IsOpen(s.records[c])
    ensures s.records[c].established == 1 && s.records[c].closes == 0 && s.records[c].removals == 0
  {
  }

  // ---------------------------------------------------------------- every step keeps the books

  lemma {:induction false} AcceptInv(s: Server, l: Loop)
    requires Inv(s, Empty)
    ensures Inv(WithNew(s, l), Holding(Establish(s.connSequence)))
  {
    hide Balanced, TasksKnown, Pending, Watched;
    var c, s' := s.connSequence, WithNew(s, l);
    NoTaskYet(s, s', c);
    BalancedNew(s', c);
    WatchedNew(s'.records[c]);
    forall d | d in s'.records && d != c ensures Balanced(s', d, Holding(Establish(c))) {
      OtherBalanced(s, s', c, d, Empty, Holding(Establish(c)));
    }
  }

  lemma WatchedNew(r: Record)
    requires r == Record(Connecting, r.loop, UNKNOWN, 0, 0, 0, 0, 0, false, 0)
    ensures Watched(r)
  {
  }

  lemma {:induction false} BalancedNew(s: Server, c: Conn)
    requires c in s.records && c in s.connections
    requires s.records[c] == Record(Connecting, s.records[c].loop, UNKNOWN, 0, 0, 0, 0, 0, false, 0)
    requires forall t: Task :: t.c == c ==> Pending(s, t, Empty) == 0
    ensures Balanced(s, c, Holding(Establish(c)))
  {
    assert Pending(s, Establish(c), Empty) == 0 && Pending(s, Remove(c), Empty) == 0 && Pending(s, Destroy(c), Empty) == 0;
  }

  /** No task mentions a connection before it exists. */
  lemma {:induction false} NoTaskYet(s: Server, s': Server, c: Conn)
    requires TasksKnown(s) && c !in s.records && c in s'.records
    requires s'.records == s.records[c := s'.records[c]] && s'.queues == s.queues
    ensures TasksKnown(s')
    ensures forall t: Task :: t.c == c ==> Pending(s', t, Empty) == 0
  {
    forall t: Task | t.c == c ensures t !in Queue(s', Home(s', t)) {
    }
  }

  lemma {:induction false} HoldForceClose(s: Server, c: Conn)
    requires Inv(s, Empty) && c in s.records
    ensures Inv(s, Holding(ForceClose(c)))
  {
    hide Balanced, TasksKnown, Watched;
    HandOther(s, c, ForceClose(c));
    assert s.records == s.records[c := s.records[c]];
    TradeInv(s, s, c, s.records[c], Empty, Holding(ForceClose(c)));
  }

  lemma {:induction false} BalancedShutDown(s: Server, c: Conn)
    requires c in s.records && Balanced(s, c, Empty) && s.records[c].state == Connected && Watched(s.records[c])
    ensures var r := s.records[c].(state := DisConnecting); Balanced(Put(s, c, r), c, Empty) && Watched(r)
  {
  }

  lemma {:induction false} BalancedToggle(s: Server, c: Conn)
    requires c in s.records && Balanced(s, c, Empty) && IsOpen(s.records[c]) && Watched(s.records[c])
    ensures var r' := Toggled(s.records[c]); Balanced(Put(s, c, r'), c, Empty) && Watched(r') && r'.loop == s.records[c].loop
  {
  }

  /** The books do not depend on what is being dispatched. */
  lemma {:induction false} RoundsApart(s: Server, s': Server)
    requires Inv(s, Empty)
    requires s'.records == s.records && s'.connections == s.connections && s'.connSequence == s.connSequence && s'.queues == s.queues
    ensures Inv(s', Empty)
  {
    hide Watched, TasksKnown, Balanced;
    KnownSame(s, s');
    forall c | c in s'.records ensures Balanced(s', c, Empty) {
      OtherBalanced(s, s', c + 1, c, Empty, Empty);
    }
  }

  lemma {:induction false} KnownSame(s: Server, s': Server)
    requires TasksKnown(s) && s'.records == s.records && s'.queues == s.queues
    ensures TasksKnown(s')
  {
  }

  lemma {:induction false} NextInv(s: Server, a: Action)
    requires Inv(s, Empty) && Enabled(s, a) && ActiveKnown(s)
    ensures Inv(Next(s, a), Empty)
  {
    hide Balanced, TasksKnown, Watched, Execute, HandleClose, RunInLoop, Toggled, Reportable;
    match a
    case Accept(l) =>
      AcceptInv(s, l);
      RunInLoopInv(WithNew(s, l), BASE, Establish(s.connSequence));
    case RunTask(l) =>
      PopInv(s, l);
      ExecuteInv(Pop(s, l), Queue(s, l)[0]);
    case Poll(l, ready) =>
      RoundsApart(s, Next(s, a));
    case ReadEvent(l, eof) =>
      RoundsApart(s, ReadDone(s, l));
      if eof { HandleCloseInv(ReadDone(s, l), Active(s, l)[0].c); }
    case HangUp(l) =>
      RoundsApart(s, Dispatched(s, l));
      if Active(s, l)[0].hangUp { HandleCloseInv(Dispatched(s, l), Active(s, l)[0].c); }
    case ToggleInterest(c) =>
      BalancedToggle(s, c);
      TradeInv(s, Next(s, a), c, Toggled(s.records[c]), Empty, Empty);
    case RequestShutDown(c) =>
      if s.records[c].state == Connected {
        BalancedShutDown(s, c);
        TradeInv(s, Next(s, a), c, s.records[c].(state := DisConnecting), Empty, Empty);
      }
    case RequestForceClose(c, inLoop) =>
      HoldForceClose(s, c);
      if inLoop {
        ExecuteInv(s, ForceClose(c));
      } else {
        EnqueueInv(s, ForceClose(c));
      }
  }

  // ---------------------------------------------------------------- how often connections close

  /** A close event for this connection comes too late: the connection was closed earlier in the
      same round, or it was closed while the kernel was not watching it, which made the kernel
      watch it again. */
  predicate Late(s: Server, c: Conn)
    requires c in s.records
  {
    c in ClosedIn(s, s.records[c].loop) || s.records[c].idle
  }

  /** The channels to be dispatched are those of established connections; if one of them has been
      closed since it was reported, or before, its event is late. */
  ghost predicate RoundsKnown(s: Server) {
    && ActiveKnown(s)
    && (forall l, i :: l in s.active && 0 <= i < |s.active[l]| && s.records[s.active[l][i].c].closes == 1 ==>
          Late(s, s.active[l][i].c))
    && (forall l, c :: l in s.closed && c in s.closed[l] ==>
          c in s.records && s.records[c].loop == l && s.records[c].closes > 0)
  }

  /** An established connection that is not connected any more does not become so again. */
  predicate StaysLeft(r: Record, r': Record) {
    && r'.established >= r.established
    && (r.established > 0 && r'.established == r.established && r.state != Connected ==> r'.state != Connected)
  }

  ghost predicate RecordMoves(r: Record, r': Record, n: nat) {
    && r'.loop == r.loop && r'.established >= r.established && r'.closes == r.closes + n
    && (r.closes > 0 && r.idle ==> r'.idle) && r'.pauses == r.pauses
    && StaysLeft(r, r')
  }

  /** A removal of this connection's channel interferes with no dispatch. */
  predicate Resting(s: Server, c: Conn)
    requires c in s.records
  {
    s.records[c].loop == BASE || Active(s, s.records[c].loop) == []
  }

  /** What running a task does to rounds and closes: connection `c` is closed `n` times. */
  ghost predicate Moved(s: Server, s': Server, c: Conn, n: nat)
    requires c in s.records
  {
    && s'.records.Keys == s.records.Keys && s'.active == s.active && s'.connSequence == s.connSequence
    && s'.closed == (if n == 0 then s.closed else Noted(s, c).closed)
    && (forall d :: d in s.records ==> RecordMoves(s.records[d], s'.records[d], if d == c then n else 0))
    && (forall d :: d in s.records && !Resting(s, d) ==> s'.records[d].removals == s.records[d].removals)
  }

  lemma {:induction false} PutMoves(s: Server, c: Conn, r: Record)
    requires c in s.records && RecordMoves(s.records[c], r, 0)
    requires Resting(s, c) || r.removals == s.records[c].removals
    ensures Moved(s, Put(s, c, r), c, 0)
  {
  }

  lemma {:induction false} MovesOn(s: Server, s': Server, s'': Server, c: Conn, n: nat)
    requires c in s.records && Moved(s, s', c, n) && Moved(s', s'', c, 0)
    ensures Moved(s, s'', c, n)
  {
    forall d | d in s.records ensures RecordMoves(s.records[d], s''.records[d], if d == c then n else 0) {
      assert RecordMoves(s.records[d], s'.records[d], if d == c then n else 0);
      assert d in s'.records && RecordMoves(s'.records[d], s''.records[d], 0);
    }
  }

  lemma {:induction false} EnqueueMoves(s: Server, l: Loop, t: Task, c: Conn)
    requires c in s.records
    ensures Moved(s, Enqueue(s, l, t), c, 0)
  {
  }

  lemma {:induction false} EstablishMoves(s: Server, from: Loop, c: Conn)
    requires c in s.records
    ensures Moved(s, Execute(s, Establish(c)), c, 0) && Moved(s, RunInLoop(s, from, Establish(c)), c, 0)
  {
    hide Moved, Updated;
    EnqueueMoves(s, s.records[c].loop, Establish(c), c);
    PutMoves(s, c, Opened(s.records[c]));
  }

  lemma {:induction false} DestroyMoves(s: Server, c: Conn)
    requires c in s.records
    ensures Resting(s, c) ==> Moved(s, Execute(s, Destroy(c)), c, 0)
    ensures Moved(s, RunInLoop(s, BASE, Destroy(c)), c, 0)
  {
    hide Moved, Updated, Unregistered;
    EnqueueMoves(s, s.records[c].loop, Destroy(c), c);
    if Resting(s, c) {
      PutMoves(s, c, Destroyed(s.records[c]));
    }
  }

  lemma {:induction false} RemoveMoves(s: Server, c: Conn, from: Loop)
    requires c in s.records
    ensures Moved(s, Execute(s, Remove(c)), c, 0) && Moved(s, RunInLoop(s, from, Remove(c)), c, 0)
  {
    var r' := Erased(s.records[c], c in s.connections);
    var s' := Put(s, c, r').(connections := s.connections - {c});
    assert Moved(s, s', c, 0);
    hide Moved, Erased;
    DestroyMoves(s', c);
    MovesOn(s, s', Execute(s, Remove(c)), c, 0);
    EnqueueMoves(s, BASE, Remove(c), c);
  }

  lemma {:induction false} HandleCloseMoves(s: Server, c: Conn)
    requires c in s.records
    ensures Moved(s, HandleClose(s, c), c, 1)
  {
    var s' := Put(Noted(s, c), c, Closed(s.records[c]));
    ClosedMoves(s, c);
    hide Moved, Closed, Noted;
    RemoveMoves(s', c, s.records[c].loop);
    MovesOn(s, s', HandleClose(s, c), c, 1);
  }

  lemma {:induction false} ClosedMoves(s: Server, c: Conn)
    requires c in s.records
    ensures Moved(s, Put(Noted(s, c), c, Closed(s.records[c])), c, 1)
  {
    hide Updated;
  }

  lemma {:induction false} ExecuteMoves(s: Server, t: Task)
    requires t.c in s.records && (t.Destroy? ==> Resting(s, t.c))
    ensures Moved(s, Execute(s, t), t.c, if t.ForceClose? && IsOpen(s.records[t.c]) then 1 else 0)
  {
    match t
    case Establish(c) => EstablishMoves(s, BASE, c);
    case ForceClose(c) => HandleCloseMoves(s, c);
    case Remove(c) => RemoveMoves(s, c, BASE);
    case Destroy(c) => DestroyMoves(s, c);
  }

  lemma {:induction false} MovedRounds(s: Server, s': Server, c: Conn, n: nat)
    requires c in s.records && RoundsKnown(s) && Moved(s, s', c, n) && n <= 1
    ensures RoundsKnown(s')
  {
    forall d | d in s.records && (s.records[d].closes > 0 || (d == c && n == 1)) && Late(s, d) ensures Late(s', d) {
    }
    forall l, i | l in s'.active && 0 <= i < |s'.active[l]|
      ensures var d := s'.active[l][i].c;
        && d in s'.records && s'.records[d].loop == l && s'.records[d].established > 0
        && (l != BASE ==> s'.records[d].removals == 0)
        && (s'.records[d].closes == 1 ==> Late(s', d))
    {
      var d := s.active[l][i].c;
      assert RecordMoves(s.records[d], s'.records[d], if d == c then n else 0);
      assert l != BASE ==> !Resting(s, d);
    }
    forall l, d | l in s'.closed && d in s'.closed[l]
      ensures d in s'.records && s'.records[d].loop == l && s'.records[d].closes > 0
    {
      assert d in s.records;
      assert RecordMoves(s.records[d], s'.records[d], if d == c then n else 0);
    }
  }

  lemma {:induction false} ToggleRounds(s: Server, c: Conn)
    requires RoundsKnown(s) && c in s.records
    ensures var s' := Put(s, c, Toggled(s.records[c]));
      && RoundsKnown(s') && s'.records.Keys == s.records.Keys && NoneReconnects(s, s')
      && forall d :: d in s.records ==> s'.records[d].closes == s.records[d].closes
  {
    hide Updated;
  }

  lemma {:induction false} NewRounds(s: Server, l: Loop)
    requires RoundsKnown(s) && s.connSequence !in s.records
    ensures RoundsKnown(WithNew(s, l))
  {
  }

  lemma {:induction false} PollRounds(s: Server, l: Loop, ready: seq<Ready>)
    requires RoundsKnown(s) && Reportable(s, l, ready) && forall c :: c in s.records ==> Watched(s.records[c])
    ensures RoundsKnown(s.(active := s.active[l := ready], closed := s.closed[l := {}]))
  {
    hide Watched;
    forall i | 0 <= i < |ready|
      ensures var c := ready[i].c;
        && c in s.records && s.records[c].loop == l && s.records[c].established > 0
        && (l != BASE ==> s.records[c].removals == 0)
        && (s.records[c].closes == 1 ==> s.records[c].idle)
    {
      WatchedReported(s.records[ready[i].c]);
    }
  }

  lemma WatchedReported(r: Record)
    requires Watched(r) && r.watch.inKernel
    ensures r.established > 0 && (r.loop != BASE ==> r.removals == 0) && (r.closes == 1 ==> r.idle)
  {
  }

  ghost function Conns(ready: seq<Ready>): set<Conn> {
    set r | r in ready :: r.c
  }

  /** Fewer channels of a loop, or the same ones, are to be dispatched. */
  lemma {:induction false} FewerRounds(s: Server, s': Server, l: Loop, ready: seq<Ready>)
    requires RoundsKnown(s) && s'.records == s.records && s'.closed == s.closed && s'.active == s.active[l := ready]
    requires forall i :: 0 <= i < |ready| ==> ready[i].c in Conns(Active(s, l))
    ensures RoundsKnown(s')
  {
    forall i | 0 <= i < |ready|
      ensures var c := ready[i].c;
        && c in s.records && s.records[c].loop == l && s.records[c].established > 0
        && (l != BASE ==> s.records[c].removals == 0)
        && (s.records[c].closes == 1 ==> Late(s, c))
    {
      assert ready[i].c in Conns(Active(s, l));
      var r :| r in Active(s, l) && r.c == ready[i].c;
      var j :| 0 <= j < |Active(s, l)| && Active(s, l)[j] == r;
    }
  }

  lemma {:induction false} DispatchRounds(s: Server, l: Loop)
    requires RoundsKnown(s) && Active(s, l) != []
    ensures RoundsKnown(ReadDone(s, l)) && RoundsKnown(Dispatched(s, l))
  {
    hide RoundsKnown;
    var ready := Active(s, l);
    assert forall i :: 0 <= i < |ready| ==> ready[i] in ready && ready[i].c in Conns(ready);
    FewerRounds(s, Dispatched(s, l), l, ready[1..]);
    FewerRounds(s, ReadDone(s, l), l, [ready[0].(readable := false)] + ready[1..]);
  }

  lemma RoundsActive(s: Server)
    requires RoundsKnown(s)
    ensures ActiveKnown(s)
  {
  }

  lemma {:induction false} RoundsSame(s: Server, s': Server)
    requires RoundsKnown(s) && s'.records == s.records && s'.closed == s.closed && s'.active == s.active
    ensures RoundsKnown(s')
  {
  }

  /** A channel event that closes its connection: end of file or a hang-up. */
  predicate IsCloseEvent(s: Server, a: Action)
    requires Enabled(s, a)
  {
    (a.ReadEvent? && a.eof) || (a.HangUp? && Active(s, a.loop)[0].hangUp)
  }

  /** The connection of the channel being dispatched. */
  function Target(s: Server, a: Action): Conn
    requires Enabled(s, a) && (a.ReadEvent? || a.HangUp?)
  {
    Active(s, a.loop)[0].c
  }

  lemma TargetKnown(s: Server, a: Action)
    requires Enabled(s, a) && ActiveKnown(s) && (a.ReadEvent? || a.HangUp?)
    ensures Target(s, a) in s.records && s.records[Target(s, a)].established > 0
  {
  }

  /** A close event is not late. */
  predicate Clean(s: Server, a: Action)
    requires Enabled(s, a) && ActiveKnown(s)
  {
    IsCloseEvent(s, a) ==> (TargetKnown(s, a); !Late(s, Target(s, a)))
  }

  predicate ClosedOnce(s: Server) {
    forall c :: c in s.records ==> s.records[c].closes <= 1
  }

  /** No connection has stopped wanting events. */
  predicate NoPauses(s: Server) {
    forall c :: c in s.records ==> s.records[c].pauses == 0
  }

  ghost predicate NoneReconnects(s: Server, s': Server) {
    forall c :: c in s.records && c in s'.records ==> StaysLeft(s.records[c], s'.records[c])
  }

  ghost predicate AllInv(s: Server) {
    Inv(s, Empty) && RoundsKnown(s)
  }

  lemma {:induction false} CloseBound(s: Server, s': Server, c: Conn, n: nat)
    requires c in s.records && Moved(s, s', c, n) && n <= 1
    ensures ClosedOnce(s) && (n == 1 ==> s.records[c].closes == 0) ==> ClosedOnce(s')
    ensures forall d :: d in s.records ==> d in s'.records && s.records[d].closes <= s'.records[d].closes
    ensures c in s'.records && s'.records[c].closes == s.records[c].closes + n
    ensures NoPauses(s) ==> NoPauses(s')
    ensures NoneReconnects(s, s')
  {
    forall d | d in s.records
      ensures StaysLeft(s.records[d], s'.records[d])
      ensures d in s'.records && s'.records[d].closes == s.records[d].closes + (if d == c then n else 0)
      ensures s'.records[d].pauses == s.records[d].pauses
    {
      assert RecordMoves(s.records[d], s'.records[d], if d == c then n else 0);
    }
  }

  /** A late event closes a connection that has been closed. */
  lemma {:induction false} LateClosed(s: Server, c: Conn)
    requires c in s.records && RoundsKnown(s) && Watched(s.records[c]) && Late(s, c)
    ensures s.records[c].closes > 0
  {
  }

  /** Events that are not late find their connection open, unless it was closed twice before. */
  lemma {:induction false} CloseEventCloses(s: Server, a: Action)
    requires AllInv(s) && Enabled(s, a) && IsCloseEvent(s, a)
    ensures RoundsKnown(Next(s, a)) && Target(s, a) in s.records
    ensures forall c :: c in s.records ==> c in Next(s, a).records && s.records[c].closes <= Next(s, a).records[c].closes
    ensures Clean(s, a) && ClosedOnce(s) ==> ClosedOnce(Next(s, a))
    ensures NoPauses(s) && !a.ToggleInterest? ==> NoPauses(Next(s, a))
    ensures NoneReconnects(s, Next(s, a))
    ensures !Clean(s, a) ==> Next(s, a).records[Target(s, a)].closes > 1
  {
    hide Inv, RoundsKnown, Clean, Moved, HandleClose;
    InvTasks(s);
    EventLate(s, a);
    var c, l := Target(s, a), a.loop;
    DispatchRounds(s, l);
    var s0 := if a.ReadEvent? then ReadDone(s, l) else Dispatched(s, l);
    HandleCloseMoves(s0, c);
    MovedRounds(s0, Next(s, a), c, 1);
    CloseBound(s0, Next(s, a), c, 1);
  }

  /** The event of a channel being dispatched is late only after a close, and always after the
      first one. */
  lemma {:induction false} EventLate(s: Server, a: Action)
    requires AllInv(s) && Enabled(s, a) && IsCloseEvent(s, a)
    ensures ActiveKnown(s) && Target(s, a) in s.records
    ensures s.records[Target(s, a)].closes == 1 ==> !Clean(s, a)
    ensures !Clean(s, a) ==> s.records[Target(s, a)].closes > 0
  {
    hide Balanced, TasksKnown;
    TargetKnown(s, a);
    var c := Target(s, a);
    assert s.records[c].closes == 1 ==> Late(s, c);
    if Late(s, c) {
      LateClosed(s, c);
    }
  }

  lemma {:induction false} AcceptCloses(s: Server, l: Loop)
    requires AllInv(s)
    ensures var s' := Next(s, Accept(l));
      && RoundsKnown(s') && (ClosedOnce(s) ==> ClosedOnce(s')) && (NoPauses(s) ==> NoPauses(s')) && NoneReconnects(s, s')
      && (forall c :: c in s.records ==> c in s'.records && s.records[c].closes <= s'.records[c].closes)
  {
    hide RoundsKnown, Watched, Balanced, TasksKnown, Moved, RunInLoop;
    var w, c := WithNew(s, l), s.connSequence;
    RoundsActive(s);
    NewRounds(s, l);
    EstablishMoves(w, BASE, c);
    MovedRounds(w, Next(s, Accept(l)), c, 0);
    CloseBound(w, Next(s, Accept(l)), c, 0);
  }

  /** What a step does to the rounds and to the number of closes. */
  lemma {:induction false} NextCloses(s: Server, a: Action)
    requires AllInv(s) && Enabled(s, a)
    ensures RoundsKnown(Next(s, a))
    ensures forall c :: c in s.records ==> c in Next(s, a).records && s.records[c].closes <= Next(s, a).records[c].closes
    ensures Clean(s, a) && ClosedOnce(s) ==> ClosedOnce(Next(s, a))
    ensures NoPauses(s) && !a.ToggleInterest? ==> NoPauses(Next(s, a))
    ensures NoneReconnects(s, Next(s, a))
    ensures !Clean(s, a) ==> (a.ReadEvent? || a.HangUp?)
    ensures !Clean(s, a) ==> Target(s, a) in Next(s, a).records && Next(s, a).records[Target(s, a)].closes > 1
  {
    hide RoundsKnown, Late, Watched, Balanced, TasksKnown, Moved, Execute, HandleClose, RunInLoop, Toggled;
    RoundsActive(s);
    if IsCloseEvent(s, a) {
      CloseEventCloses(s, a);
    } else {
      match a
      case Accept(l) => AcceptCloses(s, l);
      case RunTask(l) => TaskCloses(s, l);
      case Poll(l, ready) => PollRounds(s, l, ready);
      case ReadEvent(l, _) => DispatchRounds(s, l);
      case HangUp(l) => DispatchRounds(s, l);
      case ToggleInterest(c) =>
        ToggleRounds(s, c);
      case RequestShutDown(c) =>
        PutMoves(s, c, s.records[c].(state := DisConnecting));
        MovedRounds(s, Put(s, c, s.records[c].(state := DisConnecting)), c, 0);
        CloseBound(s, Put(s, c, s.records[c].(state := DisConnecting)), c, 0);
      case RequestForceClose(c, inLoop) => ForceCloseCloses(s, c, inLoop);
    }
  }

  lemma {:induction false} TaskCloses(s: Server, l: Loop)
    requires AllInv(s) && Enabled(s, RunTask(l))
    ensures var s' := Next(s, RunTask(l));
      && RoundsKnown(s') && (ClosedOnce(s) ==> ClosedOnce(s')) && (NoPauses(s) ==> NoPauses(s')) && NoneReconnects(s, s')
      && (forall c :: c in s.records ==> c in s'.records && s.records[c].closes <= s'.records[c].closes)
  {
    hide RoundsKnown, Watched, Balanced, TasksKnown, Moved, Execute;
    RoundsActive(s);
    var t, s0 := Queue(s, l)[0], Pop(s, l);
    KnownPop(s, l);
    KnownFirst(s, l);
    RoundsSame(s, s0);
    ExecuteMoves(s0, t);
    if IsOpen(s.records[t.c]) { OpenEstablished(s, t.c); }
    var n := if t.ForceClose? && IsOpen(s.records[t.c]) then 1 else 0;
    MovedRounds(s0, Next(s, RunTask(l)), t.c, n);
    CloseBound(s0, Next(s, RunTask(l)), t.c, n);
  }

  lemma {:induction false} ForceCloseCloses(s: Server, c: Conn, inLoop: bool)
    requires AllInv(s) && c in s.records
    ensures var s' := Next(s, RequestForceClose(c, inLoop));
      && RoundsKnown(s') && (ClosedOnce(s) ==> ClosedOnce(s')) && (NoPauses(s) ==> NoPauses(s')) && NoneReconnects(s, s')
      && (forall d :: d in s.records ==> d in s'.records && s.records[d].closes <= s'.records[d].closes)
  {
    hide RoundsKnown, Watched, Balanced, TasksKnown, Moved, Execute;
    RoundsActive(s);
    var s' := Next(s, RequestForceClose(c, inLoop));
    if IsOpen(s.records[c]) {
      OpenEstablished(s, c);
      ExecuteMoves(s, ForceClose(c));
      EnqueueMoves(s, s.records[c].loop, ForceClose(c), c);
      MovedRounds(s, s', c, if inLoop then 1 else 0);
      CloseBound(s, s', c, if inLoop then 1 else 0);
    }
  }

  // ---------------------------------------------------------------- whole runs

  /** A run: actions that are not enabled when their turn comes do not happen. */
  ghost function Run(s: Server, actions: seq<Action>): (s': Server)
    requires AllInv(s)
    ensures AllInv(s')
    decreases |actions|
  {
    if actions == [] then s
    else if Enabled(s, actions[0]) then
      StepInv(s, actions[0]);
      Run(Next(s, actions[0]), actions[1..])
    else Run(s, actions[1..])
  }

  lemma {:induction false} StepInv(s: Server, a: Action)
    requires AllInv(s) && Enabled(s, a)
    ensures AllInv(Next(s, a))
  {
    hide Inv, RoundsKnown, Next, Enabled;
    RoundsActive(s);
    assert Inv(s, Empty) && TasksKnown(s) by { InvTasks(s); }
    NextInv(s, a);
    NextCloses(s, a);
  }

  lemma InvTasks(s: Server)
    requires Inv(s, Empty)
    ensures TasksKnown(s)
  {
    hide Balanced, Watched;
  }

  /** No close event of the run is late. */
  ghost predicate CleanRun(s: Server, actions: seq<Action>)
    requires AllInv(s)
    decreases |actions|
  {
    actions == [] ||
    if Enabled(s, actions[0]) then
      StepInv(s, actions[0]);
      Clean(s, actions[0]) && CleanRun(Next(s, actions[0]), actions[1..])
    else CleanRun(s, actions[1..])
  }

  lemma {:induction false} RunGrows(s: Server, actions: seq<Action>, c: Conn)
    requires AllInv(s) && c in s.records
    ensures c in Run(s, actions).records && s.records[c].closes <= Run(s, actions).records[c].closes
    decreases |actions|
  {
    hide Balanced, TasksKnown, Watched, Next, Enabled;
    if actions != [] {
      if Enabled(s, actions[0]) {
        StepInv(s, actions[0]);
        NextCloses(s, actions[0]);
        RunGrows(Next(s, actions[0]), actions[1..], c);
      } else {
        RunGrows(s, actions[1..], c);
      }
    }
  }

  /** In every run, no connection is closed twice if and only if no close event is late. */
  lemma {:induction false} ClosedOnceIffClean(s: Server, actions: seq<Action>)
    requires AllInv(s) && ClosedOnce(s)
    ensures ClosedOnce(Run(s, actions)) <==> CleanRun(s, actions)
    decreases |actions|
  {
    hide Balanced, TasksKnown, Watched, Next, Enabled, Clean, ClosedOnce, Late;
    if actions != [] {
      var a := actions[0];
      if Enabled(s, a) {
        StepInv(s, a);
        NextCloses(s, a);
        if Clean(s, a) {
          ClosedOnceIffClean(Next(s, a), actions[1..]);
        } else {
          RunGrows(Next(s, a), actions[1..], Target(s, a));
          NotClosedOnce(Run(s, actions), Target(s, a));
        }
      } else {
        ClosedOnceIffClean(s, actions[1..]);
      }
    }
  }

  lemma NotClosedOnce(s: Server, c: Conn)
    requires c in s.records && s.records[c].closes > 1
    ensures !ClosedOnce(s)
  {
  }

  /** A close event does not find its connection closed earlier in the same round. */
  predicate RoundClean(s: Server, a: Action)
    requires Enabled(s, a)
  {
    IsCloseEvent(s, a) ==> Target(s, a) !in ClosedIn(s, a.loop)
  }

  ghost predicate RoundCleanRun(s: Server, actions: seq<Action>)
    requires AllInv(s)
    decreases |actions|
  {
    actions == [] ||
    if Enabled(s, actions[0]) then
      StepInv(s, actions[0]);
      RoundClean(s, actions[0]) && RoundCleanRun(Next(s, actions[0]), actions[1..])
    else RoundCleanRun(s, actions[1..])
  }

  /** A connection that never stopped wanting events is not idle when it is closed. */
  lemma {:induction false} CleanWithoutPauses(s: Server, a: Action)
    requires AllInv(s) && Enabled(s, a) && NoPauses(s)
    ensures Clean(s, a) <==> RoundClean(s, a)
  {
    if IsCloseEvent(s, a) {
      TargetKnown(s, a);
      assert Watched(s.records[Target(s, a)]);
    }
  }

  lemma {:induction false} RunWithoutPauses(s: Server, actions: seq<Action>)
    requires AllInv(s) && NoPauses(s) && forall i :: 0 <= i < |actions| ==> !actions[i].ToggleInterest?
    ensures CleanRun(s, actions) <==> RoundCleanRun(s, actions)
    decreases |actions|
  {
    hide Balanced, TasksKnown, Watched, Next, Enabled, Clean, RoundClean, NoPauses;
    if actions != [] {
      if Enabled(s, actions[0]) {
        StepInv(s, actions[0]);
        NextCloses(s, actions[0]);
        CleanWithoutPauses(s, actions[0]);
        RunWithoutPauses(Next(s, actions[0]), actions[1..]);
      } else {
        RunWithoutPauses(s, actions[1..]);
      }
    }
  }

  /** A server that has just been constructed. */
  ghost predicate Initial(s: Server)
    ensures Initial(s) ==> AllInv(s) && ClosedOnce(s) && NoPauses(s)
  {
    s.records == map[] && s.connections == {} && s.connSequence == 0 && s.queues == map[] && s.active == map[] && s.closed == map[]
  }

  /** No functor waits in any loop. */
  predicate Quiescent(s: Server) {
    forall l :: l in s.queues ==> s.queues[l] == []
  }

  /** Every erase has removed exactly one entry, and no channel was removed twice. */
  predicate Orderly(s: Server) {
    forall c :: c in s.records ==> s.records[c].misses == 0 && s.records[c].removals <= 1
  }

  /** Every epoll_ctl call made for a channel was legal. */
  predicate LegalCalls(s: Server) {
    forall c :: c in s.records ==> s.records[c].watch.illegal == 0
  }

  // ---------------------------------------------------------------- main results

  /** As long as no connection stops wanting events, connections are closed at most once if and
      only if no round has a close event for a connection after closing it. */
  lemma {:induction false} ClosedOnceIffRoundsClean(init: Server, actions: seq<Action>)
    requires Initial(init) && forall i :: 0 <= i < |actions| ==> !actions[i].ToggleInterest?
    ensures ClosedOnce(Run(init, actions)) <==> RoundCleanRun(init, actions)
  {
    hide AllInv, Run, CleanRun, RoundCleanRun;
    ClosedOnceIffClean(init, actions);
    RunWithoutPauses(init, actions);
  }

  /** A closed connection stays closed, whatever happens afterwards. */
  lemma {:induction false} NeverReopened(s: Server, actions: seq<Action>, c: Conn)
    requires AllInv(s) && c in s.records && s.records[c].state == DisConnected
    ensures c in Run(s, actions).records && Run(s, actions).records[c].state == DisConnected
  {
    hide TasksKnown, Watched, RoundsKnown, Run, Pending;
    RunGrows(s, actions, c);
    assert Balanced(s, c, Empty) && Balanced(Run(s, actions), c, Empty);
  }

  /** In every run, clean or not: what is removed was erased, what is erased was closed, what
      is closed was established, and all that is missing is on its way. */
  lemma {:induction false} LifeInOrder(init: Server, actions: seq<Action>, c: Conn)
    requires Initial(init) && c in Run(init, actions).records
    ensures var r := Run(init, actions).records[c];
      && r.removals <= r.erases <= r.closes
      && (r.closes > 0 ==> r.established == 1)
      && (c in Run(init, actions).connections <==> r.erases == 0)
  {
    hide TasksKnown, Watched, RoundsKnown, Run;
    assert Balanced(Run(init, actions), c, Empty);
  }

  lemma {:induction false} OnceOrderly(s: Server, c: Conn)
    requires c in s.records && Balanced(s, c, Empty) && Watched(s.records[c]) && s.records[c].closes <= 1
    ensures s.records[c].misses == 0 && s.records[c].removals <= 1 && s.records[c].watch.illegal == 0
  {
    hide Pending;
  }

  /** If no close event is late, every connection is closed at most once, every erase finds its
      entry, no channel is removed twice and every epoll_ctl call is legal. */
  lemma {:induction false} CleanRunsAreOrderly(init: Server, actions: seq<Action>)
    requires Initial(init) && CleanRun(init, actions)
    ensures var s := Run(init, actions); ClosedOnce(s) && Orderly(s) && LegalCalls(s)
  {
    hide TasksKnown, Watched, Balanced, RoundsKnown, Run, CleanRun;
    ClosedOnceIffClean(init, actions);
    var s := Run(init, actions);
    forall c | c in s.records ensures s.records[c].misses == 0 && s.records[c].removals <= 1 && s.records[c].watch.illegal == 0 {
      OnceOrderly(s, c);
    }
  }

  /** In every run, exactly which channels get an illegal epoll_ctl call. In an I/O loop: those
      removed at least twice after an even number of turnovers, that is, after an even number
      of closes, or an odd one if the connection wanted no events at the first. In the base
      loop: those closed three times, or twice if the connection wanted no events at the first. */
  lemma {:induction false} IllegalExactly(init: Server, actions: seq<Action>, c: Conn)
    requires Initial(init) && c in Run(init, actions).records
    ensures var r := Run(init, actions).records[c]; r.loop != BASE ==>
      && (r.watch.illegal > 0 <==> r.removals >= 2 && (r.closes % 2 == 0 <==> !r.idle))
      && (r.watch.illegal > 0 ==> r.watch.illegal == r.removals - 1)
    ensures var r := Run(init, actions).records[c]; r.loop == BASE ==>
      (r.watch.illegal > 0 <==> r.closes >= 3 || (r.closes >= 2 && r.idle))
  {
    hide TasksKnown, Balanced, RoundsKnown, Run;
    var r := Run(init, actions).records[c];
    assert Watched(r);
    if r.closes == 0 {
      assert r.established == 0 || r.watch.illegal == 0;
    }
  }

  /** A connection whose channel gets no illegal call. */
  predicate Spared(r: Record) {
    if r.loop == BASE then r.closes <= 1 || (r.closes == 2 && !r.idle)
    else r.closes <= 1 || (r.closes % 2 == 0 <==> r.idle)
  }

  /** Once all functors have run: every epoll_ctl call was legal if and only if every connection
      closed twice or more was closed so often that it is spared. */
  lemma {:induction false} LegalIffSpared(init: Server, actions: seq<Action>)
    requires Initial(init) && Quiescent(Run(init, actions))
    ensures var s := Run(init, actions); LegalCalls(s) <==> forall c :: c in s.records ==> Spared(s.records[c])
  {
    hide TasksKnown, Watched, Balanced, RoundsKnown, Run;
    var s := Run(init, actions);
    forall c | c in s.records ensures s.records[c].watch.illegal == 0 <==> Spared(s.records[c]) {
      Settled(s, c);
      IllegalExactly(init, actions, c);
    }
  }

  /** Once all functors have run: every erase has found its entry and every channel was removed
      at most once if and only if no close event was late. */
  lemma {:induction false} OrderlyIffClean(init: Server, actions: seq<Action>)
    requires Initial(init) && Quiescent(Run(init, actions))
    ensures Orderly(Run(init, actions)) <==> CleanRun(init, actions)
  {
    hide TasksKnown, Watched, Balanced, RoundsKnown, Run, CleanRun;
    ClosedOnceIffClean(init, actions);
    var s := Run(init, actions);
    forall c | c in s.records ensures s.records[c].removals == s.records[c].closes && (s.records[c].closes <= 1 ==> s.records[c].misses == 0) {
      Settled(s, c);
    }
  }

  /** With nothing pending, a connection that was closed has left the table, its channel was
      removed as often as it was closed, and all erases but the first found nothing. */
  lemma {:induction false} Settled(s: Server, c: Conn)
    requires c in s.records && Balanced(s, c, Empty) && Quiescent(s)
    ensures s.records[c].removals == s.records[c].erases == s.records[c].closes && s.records[c].established == 1
    ensures c in s.connections <==> s.records[c].closes == 0
    ensures s.records[c].misses == if s.records[c].closes == 0 then 0 else s.records[c].closes - 1
  {
    assert forall t: Task :: t.c == c ==> Queue(s, Home(s, t)) == [];
    assert Pending(s, Establish(c), Empty) == 0 && Pending(s, Remove(c), Empty) == 0 && Pending(s, Destroy(c), Empty) == 0;
  }

  // ---------------------------------------------------------------- what is asked for happens

  /** Queues have only grown, at the end. */
  ghost predicate Longer(s: Server, s': Server) {
    forall l :: Queue(s, l) <= Queue(s', l)
  }

  lemma {:induction false} LongerOn(s: Server, s': Server, s'': Server)
    requires Longer(s, s') && Longer(s', s'')
    ensures Longer(s, s'')
  {
    forall l ensures Queue(s, l) <= Queue(s'', l) {
      assert Queue(s, l) <= Queue(s', l) && Queue(s', l) <= Queue(s'', l);
    }
  }

  lemma {:induction false} EnqueueLonger(s: Server, l: Loop, t: Task)
    ensures Longer(s, Enqueue(s, l, t)) && t in Queue(Enqueue(s, l, t), l)
  {
  }

  lemma {:induction false} SameLonger(s: Server, s': Server)
    requires s'.queues == s.queues
    ensures Longer(s, s')
  {
  }

  lemma {:induction false} RunInLoopLonger(s: Server, from: Loop, t: Task)
    requires t.c in s.records
    ensures Longer(s, RunInLoop(s, from, t))
    decreases Rank(t), 1
  {
    hide Longer;
    if Home(s, t) == from {
      ExecuteLonger(s, t);
    } else {
      EnqueueLonger(s, Home(s, t), t);
    }
  }

  lemma {:induction false} HandleCloseLonger(s: Server, c: Conn)
    requires c in s.records
    ensures Longer(s, HandleClose(s, c))
    decreases 2, 0
  {
    hide Longer, Closed;
    var s' := Put(Noted(s, c), c, Closed(s.records[c]));
    SameLonger(s, s');
    RunInLoopLonger(s', s.records[c].loop, Remove(c));
    LongerOn(s, s', HandleClose(s, c));
  }

  lemma {:induction false} ExecuteLonger(s: Server, t: Task)
    requires t.c in s.records
    ensures Longer(s, Execute(s, t))
    decreases Rank(t), 0
  {
    hide Longer, Opened, Erased, Destroyed;
    var r := s.records[t.c];
    match t
    case Establish(c) => SameLonger(s, Execute(s, t));
    case ForceClose(c) =>
      if IsOpen(r) { HandleCloseLonger(s, c); } else { SameLonger(s, s); }
    case Remove(c) =>
      var s' := Put(s, c, Erased(r, c in s.connections)).(connections := s.connections - {c});
      SameLonger(s, s');
      RunInLoopLonger(s', BASE, Destroy(c));
      LongerOn(s, s', Execute(s, t));
    case Destroy(c) => SameLonger(s, Execute(s, t));
  }

  /** The connection is closed, or the functor that will close it waits in its loop. */
  ghost predicate Closing(s: Server, c: Conn) {
    && c in s.records && s.records[c].established > 0
    && (s.records[c].closes > 0 || ForceClose(c) in Queue(s, s.records[c].loop))
  }

  lemma {:induction false} ClosingMoves(s: Server, s': Server, c: Conn, d: Conn, n: nat)
    requires Closing(s, c) && d in s.records && Moved(s, s', d, n) && Longer(s, s')
    ensures Closing(s', c)
  {
    assert RecordMoves(s.records[c], s'.records[c], if c == d then n else 0);
    assert Queue(s, s.records[c].loop) <= Queue(s', s.records[c].loop);
  }

  /** The functor leaves the queue only to be run. */
  lemma {:induction false} ClosingTask(s: Server, l: Loop, c: Conn)
    requires AllInv(s) && Enabled(s, RunTask(l)) && Closing(s, c)
    ensures Closing(Next(s, RunTask(l)), c)
  {
    AllKnown(s);
    hide RoundsKnown, Watched, TasksKnown, Moved, Execute, Longer, Balanced;
    var t, s0, s' := Queue(s, l)[0], Pop(s, l), Next(s, RunTask(l));
    KnownPop(s, l);
    KnownFirst(s, l);
    ExecuteMoves(s0, t);
    ExecuteLonger(s0, t);
    var n := if t.ForceClose? && IsOpen(s.records[t.c]) then 1 else 0;
    CloseBound(s0, s', t.c, n);
    if t == ForceClose(c) && s.records[c].closes == 0 {
      NotClosedOpen(s, c);
      MovedEstablished(s0, s', c, n);
    } else {
      PopKeeps(s, l, ForceClose(c));
      assert Closing(s0, c);
      ClosingMoves(s0, s', c, t.c, n);
    }
  }

  lemma {:induction false} NotClosedOpen(s: Server, c: Conn)
    requires c in s.records && Inv(s, Empty) && s.records[c].established > 0 && s.records[c].closes == 0
    ensures IsOpen(s.records[c])
  {
    assert Balanced(s, c, Empty);
  }

  lemma {:induction false} MovedEstablished(s: Server, s': Server, c: Conn, n: nat)
    requires c in s.records && Moved(s, s', c, n)
    ensures c in s'.records && s'.records[c].established >= s.records[c].established
  {
    assert RecordMoves(s.records[c], s'.records[c], n);
  }

  lemma {:induction false} PopKeeps(s: Server, l: Loop, t: Task)
    requires Queue(s, l) != []
    ensures forall m :: t in Queue(s, m) && !(m == l && t == Queue(s, l)[0]) ==> t in Queue(Pop(s, l), m)
  {
    var q := Queue(s, l);
    assert q == [q[0]] + q[1..];
  }

  lemma {:induction false} ClosingSame(s: Server, s': Server, c: Conn)
    requires Closing(s, c) && s'.queues == s.queues && c in s'.records && s'.records[c].loop == s.records[c].loop
    requires s'.records[c].closes == s.records[c].closes && s'.records[c].established >= s.records[c].established
    ensures Closing(s', c)
  {
  }

  lemma {:induction false} ClosingEvent(s: Server, s0: Server, c: Conn, d: Conn)
    requires Closing(s, c) && d in s.records && s0.records == s.records && s0.queues == s.queues
    ensures Closing(HandleClose(s0, d), c)
  {
    ClosingSame(s, s0, c);
    hide Closing, Moved, Longer, HandleClose;
    HandleCloseMoves(s0, d);
    HandleCloseLonger(s0, d);
    ClosingMoves(s0, HandleClose(s0, d), c, d, 1);
  }

  lemma {:induction false} ClosingStep(s: Server, a: Action, c: Conn)
    requires AllInv(s) && Enabled(s, a) && Closing(s, c)
    ensures Closing(Next(s, a), c)
  {
    hide Inv, Closing, RoundsKnown, TasksKnown, ActiveKnown, Execute, HandleClose, RunInLoop, Toggled, Reportable;
    AllKnown(s);
    ClosingKnown(s, c);
    if a.ReadEvent? || a.HangUp? { TargetKnown(s, a); }
    match a
    case Accept(l) => ClosingAccept(s, l, c);
    case RunTask(l) => ClosingTask(s, l, c);
    case Poll(l, ready) => ClosingSame(s, Next(s, a), c);
    case ReadEvent(l, eof) =>
      if eof { ClosingEvent(s, ReadDone(s, l), c, Target(s, a)); } else { ClosingSame(s, Next(s, a), c); }
    case HangUp(l) =>
      if Active(s, l)[0].hangUp { ClosingEvent(s, Dispatched(s, l), c, Target(s, a)); } else { ClosingSame(s, Next(s, a), c); }
    case ToggleInterest(d) => ClosingToggle(s, d, c);
    case RequestShutDown(d) => ClosingSame(s, Next(s, a), c);
    case RequestForceClose(d, inLoop) => ClosingForce(s, d, inLoop, c);
  }

  lemma ClosingKnown(s: Server, c: Conn)
    requires Closing(s, c)
    ensures c in s.records
  {
  }

  lemma {:induction false} ClosingToggle(s: Server, d: Conn, c: Conn)
    requires Closing(s, c) && d in s.records
    ensures Closing(Put(s, d, Toggled(s.records[d])), c)
  {
    hide Updated;
  }

  lemma {:induction false} ClosingAccept(s: Server, l: Loop, c: Conn)
    requires AllInv(s) && Closing(s, c)
    ensures Closing(Next(s, Accept(l)), c)
  {
    AllKnown(s);
    hide RoundsKnown, Watched, TasksKnown, Balanced, Moved, Longer, RunInLoop;
    var w, d := WithNew(s, l), s.connSequence;
    assert Closing(w, c);
    EstablishMoves(w, BASE, d);
    RunInLoopLonger(w, BASE, Establish(d));
    ClosingMoves(w, Next(s, Accept(l)), c, d, 0);
  }

  lemma {:induction false} ClosingForce(s: Server, d: Conn, inLoop: bool, c: Conn)
    requires AllInv(s) && d in s.records && Closing(s, c)
    ensures Closing(Next(s, RequestForceClose(d, inLoop)), c)
  {
    hide Inv, Closing, RoundsKnown, TasksKnown, ActiveKnown, Moved, Longer, Execute;
    AllKnown(s);
    if IsOpen(s.records[d]) {
      if inLoop {
        ExecuteMoves(s, ForceClose(d));
        ExecuteLonger(s, ForceClose(d));
        ClosingMoves(s, Execute(s, ForceClose(d)), c, d, 1);
      } else {
        EnqueueMoves(s, s.records[d].loop, ForceClose(d), d);
        EnqueueLonger(s, s.records[d].loop, ForceClose(d));
        ClosingMoves(s, Enqueue(s, s.records[d].loop, ForceClose(d)), c, d, 0);
      }
    }
  }

  lemma {:induction false} ClosingRun(s: Server, actions: seq<Action>, c: Conn)
    requires AllInv(s) && Closing(s, c)
    ensures Closing(Run(s, actions), c)
    decreases |actions|
  {
    hide Inv, RoundsKnown, Closing, Next, Enabled;
    if actions != [] {
      if Enabled(s, actions[0]) {
        AllKnown(s);
        StepInv(s, actions[0]);
        ClosingStep(s, actions[0], c);
        ClosingRun(Next(s, actions[0]), actions[1..], c);
      } else {
        ClosingRun(s, actions[1..], c);
      }
    }
  }

  lemma {:induction false} ForceCloseAsked(s: Server, c: Conn, inLoop: bool)
    requires AllInv(s) && c in s.records && IsOpen(s.records[c])
    ensures TasksKnown(s) && ActiveKnown(s) && Closing(Next(s, RequestForceClose(c, inLoop)), c)
  {
    AllKnown(s);
    OpenNotClosed(s, c);
    hide RoundsKnown, Watched, TasksKnown, Balanced, Moved, Execute, Longer;
    var s' := Next(s, RequestForceClose(c, inLoop));
    if inLoop {
      ExecuteMoves(s, ForceClose(c));
      CloseBound(s, s', c, 1);
      MovedEstablished(s, s', c, 1);
    } else {
      EnqueueLonger(s, s.records[c].loop, ForceClose(c));
    }
  }

  /** A connection that was open when someone asked to close it, in its own thread or in another,
      is closed once all functors have run, whatever else happens. */
  lemma {:induction false} ForceCloseHappens(s: Server, c: Conn, inLoop: bool, actions: seq<Action>)
    requires AllInv(s) && c in s.records && IsOpen(s.records[c])
    ensures TasksKnown(s) && ActiveKnown(s) && AllInv(Next(s, RequestForceClose(c, inLoop)))
    ensures var t := Run(Next(s, RequestForceClose(c, inLoop)), actions);
      Quiescent(t) ==> c in t.records && t.records[c].state == DisConnected && c !in t.connections
  {
    ForceCloseAsked(s, c, inLoop);
    StepInv(s, RequestForceClose(c, inLoop));
    var a := Next(s, RequestForceClose(c, inLoop));
    ClosingRun(a, actions, c);
    ClosedAtRest(Run(a, actions), c);
  }

  lemma {:induction false} ClosedAtRest(t: Server, c: Conn)
    requires AllInv(t) && Closing(t, c)
    ensures Quiescent(t) ==> t.records[c].state == DisConnected && c !in t.connections
  {
    hide TasksKnown, Watched, RoundsKnown;
    assert Balanced(t, c, Empty);
    if Quiescent(t) {
      assert Queue(t, t.records[c].loop) == [];
      Settled(t, c);
    }
  }

  lemma {:induction false} LeftRun(s: Server, actions: seq<Action>, c: Conn)
    requires AllInv(s) && c in s.records && s.records[c].established > 0 && s.records[c].state != Connected
    ensures c in Run(s, actions).records && Run(s, actions).records[c].established > 0
    ensures Run(s, actions).records[c].state != Connected
    decreases |actions|
  {
    hide RoundsKnown, Watched, TasksKnown, Pending, Next, Enabled;
    if actions != [] {
      if Enabled(s, actions[0]) {
        AllKnown(s);
        StepInv(s, actions[0]);
        NextCloses(s, actions[0]);
        var t := Next(s, actions[0]);
        EstablishedOnce(s, t, c);
        LeftRun(t, actions[1..], c);
      } else {
        LeftRun(s, actions[1..], c);
      }
    }
  }

  lemma {:induction false} EstablishedOnce(s: Server, t: Server, c: Conn)
    requires AllInv(s) && AllInv(t) && NoneReconnects(s, t) && c in s.records && c in t.records
    requires s.records[c].established > 0 && s.records[c].state != Connected
    ensures t.records[c].established > 0 && t.records[c].state != Connected
  {
    hide RoundsKnown, Watched, TasksKnown;
    assert Balanced(s, c, Empty) && Balanced(t, c, Empty);
  }

  /** A connection that was asked to shut down is never connected again: it is disconnecting until
      it is closed. */
  lemma {:induction false} ShutDownLasts(s: Server, c: Conn, actions: seq<Action>)
    requires AllInv(s) && c in s.records && s.records[c].state == Connected
    ensures TasksKnown(s) && ActiveKnown(s) && AllInv(Next(s, RequestShutDown(c)))
    ensures var t := Run(Next(s, RequestShutDown(c)), actions);
      && c in t.records && (t.records[c].state == DisConnecting || t.records[c].state == DisConnected)
      && (t.records[c].state == DisConnected <==> t.records[c].closes > 0)
  {
    hide Inv, RoundsKnown, Run;
    AllKnown(s);
    OpenNotClosed(s, c);
    assert Enabled(s, RequestShutDown(c));
    StepInv(s, RequestShutDown(c));
    var a := Next(s, RequestShutDown(c));
    LeftRun(a, actions, c);
    LeftState(Run(a, actions), c);
  }

  lemma {:induction false} LeftState(s: Server, c: Conn)
    requires AllInv(s) && c in s.records && s.records[c].established > 0 && s.records[c].state != Connected
    ensures s.records[c].state == DisConnecting || s.records[c].state == DisConnected
    ensures s.records[c].state == DisConnected <==> s.records[c].closes > 0
  {
    hide RoundsKnown, Watched, TasksKnown;
    assert Balanced(s, c, Empty);
  }

  /** A connection of the base loop is established before NewConnection returns. */
  lemma {:induction false} AcceptedInBase(s: Server)
    requires AllInv(s)
    ensures TasksKnown(s) && ActiveKnown(s)
    ensures var t, c := Next(s, Accept(BASE)), s.connSequence;
      && c in t.records && t.records[c].state == Connected && t.records[c].watch.inKernel
      && t.records[c].loop == BASE && t.queues == s.queues
  {
    hide Inv, RoundsKnown;
    AllKnown(s);
    var w, c := WithNew(s, BASE), s.connSequence;
    assert RunInLoop(w, BASE, Establish(c)) == Execute(w, Establish(c));
    assert Execute(w, Establish(c)) == Put(w, c, Opened(w.records[c]));
  }

  /** The channels here are those of the poller: on a kernel set that agrees about the descriptor,
      a legal update has the same outcome. */
  lemma UpdatedAgrees(w: Watch, kernel: E.Kernel, channel: E.Channel, events: set<E.Flag>)
    requires w.inKernel <==> channel.fd in kernel
    ensures var op := E.UpdateOperation(w.index, events == E.NONE_EVENT);
      if E.Legal(kernel, op, channel.fd) then
        var w' := Updated(w, events != E.NONE_EVENT);
        && w'.index == E.UpdatedIndex(w.index, events) && w'.illegal == w.illegal
        && (w'.inKernel <==> channel.fd in E.UpdatedKernel(kernel, channel, w.index, events))
      else Updated(w, events != E.NONE_EVENT).illegal == w.illegal + 1
  {
  }

  // ---------------------------------------------------------------- how it goes wrong

  lemma {:induction false} RunOne(s: Server, a: Action, rest: seq<Action>)
    requires AllInv(s) && Enabled(s, a)
    ensures AllInv(Next(s, a)) && Run(s, [a] + rest) == Run(Next(s, a), rest)
  {
    hide Inv, RoundsKnown, Next, Enabled;
    StepInv(s, a);
    assert ([a] + rest)[1..] == rest;
  }

  lemma AllKnown(s: Server)
    requires AllInv(s)
    ensures TasksKnown(s) && ActiveKnown(s)
  {
    hide Balanced, Watched;
  }

  lemma RunNone(s: Server)
    requires AllInv(s)
    ensures Run(s, []) == s
  {
  }

  /** An open connection whose channel the kernel watches, in a loop that has nothing to dispatch. */
  ghost predicate Listening(s: Server, c: Conn, l: Loop) {
    && c in s.records && IsOpen(s.records[c]) && s.records[c].loop == l
    && s.records[c].watch.inKernel && s.records[c].watch.wanted && Active(s, l) == []
  }

  lemma {:induction false} OpenNotClosed(s: Server, c: Conn)
    requires AllInv(s) && c in s.records && IsOpen(s.records[c])
    ensures s.records[c].closes == 0 && s.records[c].established == 1 && Watched(s.records[c])
  {
    hide TasksKnown, Watched, RoundsKnown;
    assert Balanced(s, c, Empty);
  }

  /** After a poll that reports `ready`, the read part of the first dispatch. */
  lemma {:induction false} AfterPoll(s: Server, l: Loop, ready: seq<Ready>, rest: seq<Action>) returns (t: Server)
    requires AllInv(s) && Enabled(s, Poll(l, ready))
    ensures t == Next(s, Poll(l, ready)) && AllInv(t) && Active(t, l) == ready && t.records == s.records
    ensures ClosedIn(t, l) == {}   // a new round begins
    ensures Run(s, [Poll(l, ready)] + rest) == Run(t, rest)
  {
    hide Inv, RoundsKnown;
    RunOne(s, Poll(l, ready), rest);
    AllKnown(s);
    t := Next(s, Poll(l, ready));
  }

  /** A close event: the connection is closed once more and the round goes on. */
  lemma {:induction false} AfterClose(s: Server, a: Action, rest: seq<Action>) returns (t: Server)
    requires AllInv(s) && Enabled(s, a) && IsCloseEvent(s, a)
    ensures Target(s, a) in s.records && AllInv(t) && t == Next(s, a) && Run(s, [a] + rest) == Run(t, rest)
    ensures Target(s, a) in t.records && t.records[Target(s, a)].closes == s.records[Target(s, a)].closes + 1
    ensures a.ReadEvent? ==> Active(t, a.loop) == [Active(s, a.loop)[0].(readable := false)] + Active(s, a.loop)[1..]
  {
    RunOne(s, a, rest);
    TargetKnown(s, a);
    hide AllInv, HandleClose, Moved, Run;
    var s0 := if a.ReadEvent? then ReadDone(s, a.loop) else Dispatched(s, a.loop);
    t := Next(s, a);
    HandleCloseMoves(s0, Target(s, a));
    CloseBound(s0, t, Target(s, a), 1);
    MovedActive(s0, t, Target(s, a), 1);
  }

  /** A dispatch that ends without a close. */
  lemma {:induction false} AfterSkip(s: Server, l: Loop, rest: seq<Action>) returns (t: Server)
    requires AllInv(s) && Active(s, l) != [] && !Active(s, l)[0].readable && !Active(s, l)[0].hangUp
    ensures AllInv(t) && Run(s, [HangUp(l)] + rest) == Run(t, rest)
    ensures t.records == s.records && Active(t, l) == Active(s, l)[1..]
  {
    hide Inv, RoundsKnown;
    RunOne(s, HangUp(l), rest);
    AllKnown(s);
    t := Next(s, HangUp(l));
  }

  lemma MovedActive(s: Server, s': Server, c: Conn, n: nat)
    requires c in s.records && Moved(s, s', c, n)
    ensures s'.active == s.active
  {
  }

  /** Two close paths in one dispatch: urgent data and a hang-up are reported together and the
      read returns end of file. */
  lemma {:induction false} TwoPathsCloseTwice(s: Server, c: Conn, l: Loop)
    requires AllInv(s) && Listening(s, c, l)
    ensures var s' := Run(s, [Poll(l, [Ready(c, true, true)]), ReadEvent(l, true), HangUp(l)]);
      c in s'.records && s'.records[c].closes == 2
  {
    hide AllInv, Next, Run;
    OpenNotClosed(s, c);
    var ready := [Ready(c, true, true)];
    assert Reportable(s, l, ready);
    var p := AfterPoll(s, l, ready, [ReadEvent(l, true), HangUp(l)]);
    var q := AfterClose(p, ReadEvent(l, true), [HangUp(l)]);
    assert Active(q, l) == [Ready(c, false, true)];
    var r := AfterClose(q, HangUp(l), []);
    RunNone(r);
    assert [Poll(l, ready), ReadEvent(l, true), HangUp(l)] == [Poll(l, ready)] + [ReadEvent(l, true), HangUp(l)];
    assert [ReadEvent(l, true), HangUp(l)] == [ReadEvent(l, true)] + [HangUp(l)] && [HangUp(l)] == [HangUp(l)] + [];
  }

  /** Two dispatches of one round: both `c` and `d` are readable, a callback of `c` closes `d`, and
      the read of `d` returns end of file. */
  lemma {:induction false} OtherCallbackClosesTwice(s: Server, c: Conn, d: Conn, l: Loop)
    requires AllInv(s) && Listening(s, c, l) && Listening(s, d, l) && c != d
    ensures var s' := Run(s, [Poll(l, [Ready(c, true, false), Ready(d, true, false)])] + ([ReadEvent(l, false)] +
        ([RequestForceClose(d, true)] + ([HangUp(l)] + ([ReadEvent(l, true)] + [])))));
      d in s'.records && s'.records[d].closes == 2
  {
    hide AllInv, Run, Next, HandleClose, Moved;
    OpenNotClosed(s, d);
    var ready := [Ready(c, true, false), Ready(d, true, false)];
    assert Reportable(s, l, ready);
    var f4 := [ReadEvent(l, true)] + [];
    var f3 := [HangUp(l)] + f4;
    var f2 := [RequestForceClose(d, true)] + f3;
    var p := AfterPoll(s, l, ready, [ReadEvent(l, false)] + f2);
    var q := AfterRead(p, l, f2);
    assert Active(q, l) == [Ready(c, false, false), Ready(d, true, false)];
    var r := AfterForceClose(q, d, f3);
    var t := AfterSkip(r, l, f4);
    assert Active(t, l) == [Ready(d, true, false)];
    var u := AfterClose(t, ReadEvent(l, true), []);
    RunNone(u);
  }

  /** A read callback that gets data. */
  lemma {:induction false} AfterRead(s: Server, l: Loop, rest: seq<Action>) returns (t: Server)
    requires AllInv(s) && Active(s, l) != [] && Active(s, l)[0].readable
    ensures AllInv(t) && Run(s, [ReadEvent(l, false)] + rest) == Run(t, rest)
    ensures t.records == s.records && Active(t, l) == [Active(s, l)[0].(readable := false)] + Active(s, l)[1..]
  {
    hide Inv, RoundsKnown;
    RunOne(s, ReadEvent(l, false), rest);
    AllKnown(s);
    t := Next(s, ReadEvent(l, false));
  }

  lemma {:induction false} AfterForceClose(s: Server, c: Conn, rest: seq<Action>) returns (t: Server)
    requires AllInv(s) && c in s.records && IsOpen(s.records[c])
    ensures t == HandleClose(s, c) && AllInv(t) && Run(s, [RequestForceClose(c, true)] + rest) == Run(t, rest)
    ensures c in t.records && t.records[c].closes == 1 && t.active == s.active
  {
    hide Inv, RoundsKnown, Run, HandleClose, Moved;
    OpenNotClosed(s, c);
    assert Enabled(s, RequestForceClose(c, true));
    RunOne(s, RequestForceClose(c, true), rest);
    t := HandleClose(s, c);
    RoundsActive(s);
    InvTasks(s);
    assert Next(s, RequestForceClose(c, true)) == t;
    HandleCloseMoves(s, c);
    CloseBound(s, t, c, 1);
    MovedActive(s, t, c, 1);
  }

  /** In an I/O loop, a close leaves the removal to the base loop. */
  lemma {:induction false} CloseInIo(s: Server, c: Conn)
    requires c in s.records && s.records[c].loop != BASE
    ensures HandleClose(s, c) == Enqueue(Put(Noted(s, c), c, Closed(s.records[c])), BASE, Remove(c))
  {
  }

  /** Two rounds: a connection that wants no events is closed by force. That makes the kernel
      watch it with an empty mask, and the hang-up it then reports closes the connection again. */
  lemma {:induction false} IdleClosesTwice(s: Server, c: Conn, l: Loop)
    requires AllInv(s) && c in s.records && IsOpen(s.records[c]) && s.records[c].loop == l && l != BASE
    requires !s.records[c].watch.wanted && Active(s, l) == []
    ensures var s' := Run(s, [RequestForceClose(c, true), Poll(l, [Ready(c, false, true)]), HangUp(l)]);
      c in s'.records && s'.records[c].closes == 2
  {
    hide AllInv, Run, Next, Moved;
    OpenNotClosed(s, c);
    var ready := [Ready(c, false, true)];
    var p := AfterForceClose(s, c, [Poll(l, ready), HangUp(l)]);
    CloseInIo(s, c);
    assert p.records[c] == Closed(s.records[c]) && p.records[c].watch.inKernel;
    hide HandleClose;
    assert Reportable(p, l, ready);
    var q := AfterPoll(p, l, ready, [HangUp(l)]);
    var r := AfterClose(q, HangUp(l), []);
    RunNone(r);
    assert [RequestForceClose(c, true), Poll(l, ready), HangUp(l)] == [RequestForceClose(c, true)] + [Poll(l, ready), HangUp(l)];
    assert [Poll(l, ready), HangUp(l)] == [Poll(l, ready)] + [HangUp(l)] && [HangUp(l)] == [HangUp(l)] + [];
  }

  // ---------------------------------------------------------------- what it leads to

  /** A connection in an I/O loop while its removal is under way: its channel, what waits in the
      base loop and in its own, and what is left to be dispatched. */
  ghost predicate Stage(s: Server, c: Conn, l: Loop, w: Watch, base: seq<Task>, own: seq<Task>, ready: seq<Ready>) {
    && c in s.records && s.records[c].loop == l && s.records[c].watch == w
    && Queue(s, BASE) == base && Queue(s, l) == own
    && Active(s, BASE) == [] && Active(s, l) == ready
  }

  lemma {:induction false} StageClose(s: Server, c: Conn, l: Loop, w: Watch, base: seq<Task>, own: seq<Task>, ready: seq<Ready>)
    requires Stage(s, c, l, w, base, own, ready) && l != BASE
    ensures var t := HandleClose(s, c);
      Stage(t, c, l, Updated(w, false), base + [Remove(c)], own, ready) && t.records[c].state == DisConnected
  {
    CloseInIo(s, c);
    hide HandleClose, Updated;
  }

  lemma {:induction false} StageRemove(s: Server, c: Conn, l: Loop, w: Watch, base: seq<Task>, own: seq<Task>)
    requires Stage(s, c, l, w, base, own, []) && l != BASE && s.records[c].state == DisConnected
    ensures var t := Execute(s, Remove(c));
      Stage(t, c, l, w, base, own + [Destroy(c)], []) && t.records[c].state == DisConnected
  {
    var s0 := Put(s, c, Erased(s.records[c], c in s.connections)).(connections := s.connections - {c});
    assert Execute(s, Remove(c)) == Enqueue(s0, l, Destroy(c));
    hide Execute;
  }

  lemma {:induction false} StageDestroy(s: Server, c: Conn, l: Loop, w: Watch, base: seq<Task>, own: seq<Task>)
    requires Stage(s, c, l, w, base, own, []) && l != BASE && s.records[c].state == DisConnected
    ensures var t := Execute(s, Destroy(c));
      Stage(t, c, l, Unregistered(w), base, own, []) && t.records[c].state == DisConnected
  {
    hide Unregistered, Updated;
  }

  lemma {:induction false} StagePop(s: Server, c: Conn, l: Loop, w: Watch, base: seq<Task>, own: seq<Task>)
    requires Stage(s, c, l, w, base, own, []) && l != BASE
    ensures base != [] ==> Stage(Pop(s, BASE), c, l, w, base[1..], own, [])
    ensures own != [] ==> Stage(Pop(s, l), c, l, w, base, own[1..], [])
  {
  }

  lemma {:induction false} RunRemove(s: Server, c: Conn, l: Loop, w: Watch, base: seq<Task>, own: seq<Task>, rest: seq<Action>) returns (t: Server)
    requires AllInv(s) && Stage(s, c, l, w, base, own, []) && l != BASE && s.records[c].state == DisConnected
    requires base != [] && base[0] == Remove(c)
    ensures AllInv(t) && Run(s, [RunTask(BASE)] + rest) == Run(t, rest)
    ensures Stage(t, c, l, w, base[1..], own + [Destroy(c)], []) && t.records[c].state == DisConnected
  {
    hide Inv, RoundsKnown, Run, Execute;
    AllKnown(s);
    RunOne(s, RunTask(BASE), rest);
    StagePop(s, c, l, w, base, own);
    StageRemove(Pop(s, BASE), c, l, w, base[1..], own);
    t := Next(s, RunTask(BASE));
  }

  lemma {:induction false} RunDestroy(s: Server, c: Conn, l: Loop, w: Watch, base: seq<Task>, own: seq<Task>, rest: seq<Action>) returns (t: Server)
    requires AllInv(s) && Stage(s, c, l, w, base, own, []) && l != BASE && s.records[c].state == DisConnected
    requires own != [] && own[0] == Destroy(c)
    ensures AllInv(t) && Run(s, [RunTask(l)] + rest) == Run(t, rest)
    ensures Stage(t, c, l, Unregistered(w), base, own[1..], []) && t.records[c].state == DisConnected
  {
    hide Inv, RoundsKnown, Run, Execute;
    AllKnown(s);
    RunOne(s, RunTask(l), rest);
    StagePop(s, c, l, w, base, own);
    StageDestroy(Pop(s, l), c, l, w, base, own[1..]);
    t := Next(s, RunTask(l));
  }

  lemma {:induction false} RunClose(s: Server, c: Conn, l: Loop, w: Watch, base: seq<Task>, own: seq<Task>, a: Action, rest: seq<Action>) returns (t: Server)
    requires AllInv(s) && l != BASE && Enabled(s, a) && IsCloseEvent(s, a) && a.loop == l && Target(s, a) == c
    requires Stage(s, c, l, w, base, own, Active(s, l))
    ensures AllInv(t) && Run(s, [a] + rest) == Run(t, rest)
    ensures Stage(t, c, l, Updated(w, false), base + [Remove(c)], own, Active(t, l)) && t.records[c].state == DisConnected
    ensures Active(t, l) == (if a.ReadEvent? then [Active(s, l)[0].(readable := false)] else []) + Active(s, l)[1..]
  {
    hide Inv, RoundsKnown, Run, HandleClose, Updated;
    AllKnown(s);
    RunOne(s, a, rest);
    var s0 := if a.ReadEvent? then ReadDone(s, l) else Dispatched(s, l);
    StageClose(s0, c, l, w, base, own, Active(s0, l));
    t := Next(s, a);
  }

  /** The close paths of one dispatch, then the functors they have queued. */
  function FatalRun(c: Conn, l: Loop): seq<Action> {
    [Poll(l, [Ready(c, true, true)])] + ([ReadEvent(l, true)] + ([HangUp(l)] + Removals(l)))
  }

  function Removals(l: Loop): seq<Action> {
    [RunTask(BASE)] + ([RunTask(BASE)] + ([RunTask(l)] + ([RunTask(l)] + [])))
  }

  lemma {:induction false} TwoCloses(s: Server, c: Conn, l: Loop, w: Watch, rest: seq<Action>) returns (t: Server)
    requires AllInv(s) && Stage(s, c, l, w, [], [], []) && Listening(s, c, l) && l != BASE
    ensures AllInv(t) && Run(s, [Poll(l, [Ready(c, true, true)])] + ([ReadEvent(l, true)] + ([HangUp(l)] + rest))) == Run(t, rest)
    ensures Stage(t, c, l, Updated(Updated(w, false), false), [Remove(c), Remove(c)], [], []) && t.records[c].state == DisConnected
  {
    hide Inv, RoundsKnown, Run, Updated;
    var ready := [Ready(c, true, true)];
    assert Reportable(s, l, ready);
    var p := AfterPoll(s, l, ready, [ReadEvent(l, true)] + ([HangUp(l)] + rest));
    AllKnown(s);
    assert Stage(p, c, l, w, [], [], ready);
    hide Next, Stage;
    var q := RunClose(p, c, l, w, [], [], ReadEvent(l, true), [HangUp(l)] + rest);
    assert Active(q, l) == [Ready(c, false, true)];
    t := RunClose(q, c, l, Updated(w, false), [] + [Remove(c)], [], HangUp(l), rest);
    assert Active(t, l) == [] && [] + [Remove(c)] + [Remove(c)] == [Remove(c), Remove(c)];
  }

  lemma {:induction false} TwoRemovals(s: Server, c: Conn, l: Loop, w: Watch)
    requires AllInv(s) && l != BASE
    requires Stage(s, c, l, w, [Remove(c), Remove(c)], [], []) && s.records[c].state == DisConnected
    ensures var t := Run(s, Removals(l)); c in t.records && t.records[c].watch == Unregistered(Unregistered(w))
  {
    hide AllInv, Run, Next, Unregistered;
    var f4 := [RunTask(l)] + [];
    var f3 := [RunTask(l)] + f4;
    var f2 := [RunTask(BASE)] + f3;
    var s1 := RunRemove(s, c, l, w, [Remove(c), Remove(c)], [], f2);
    assert [Remove(c), Remove(c)][1..] == [Remove(c)] && [] + [Destroy(c)] == [Destroy(c)];
    var s2 := RunRemove(s1, c, l, w, [Remove(c)], [Destroy(c)], f3);
    assert [Remove(c)][1..] == [] && [Destroy(c)] + [Destroy(c)] == [Destroy(c), Destroy(c)];
    var s3 := RunDestroy(s2, c, l, w, [], [Destroy(c), Destroy(c)], f4);
    assert [Destroy(c), Destroy(c)][1..] == [Destroy(c)];
    var s4 := RunDestroy(s3, c, l, Unregistered(w), [], [Destroy(c)], []);
    RunNone(s4);
  }

  /** So a double close of a connection that wants events ends the process, in an I/O loop: the
      second close makes the kernel watch the descriptor again, the first removal takes it out,
      and the second removal makes an illegal call. */
  lemma {:induction false} WatchedDoubleCloseIsFatal(s: Server, c: Conn, l: Loop)
    requires AllInv(s) && Listening(s, c, l) && l != BASE
    requires Queue(s, BASE) == [] && Queue(s, l) == [] && Active(s, BASE) == []
    ensures var s' := Run(s, FatalRun(c, l)); c in s'.records && s'.records[c].watch.illegal == 1
  {
    hide AllInv, Run, Removals;
    OpenNotClosed(s, c);
    var w := s.records[c].watch;
    var t := TwoCloses(s, c, l, w, Removals(l));
    TwoRemovals(t, c, l, Updated(Updated(w, false), false));
  }

  // ---------------------------------------------------------------- such states are reached

  lemma {:induction false} RunThen(s: Server, first: seq<Action>, more: seq<Action>)
    requires AllInv(s)
    ensures Run(s, first + more) == Run(Run(s, first), more)
    decreases |first|
  {
    hide Inv, RoundsKnown, Next, Enabled;
    if first == [] {
      assert first + more == more;
    } else {
      assert (first + more)[1..] == first[1..] + more;
      if Enabled(s, first[0]) {
        StepInv(s, first[0]);
        AllKnown(s);
        RunThen(Next(s, first[0]), first[1..], more);
      } else {
        RunThen(s, first[1..], more);
      }
    }
  }

  /** Nothing waits in this loop or in the base loop. */
  predicate AtRest(s: Server, l: Loop) {
    Queue(s, BASE) == [] && Queue(s, l) == [] && Active(s, BASE) == [] && Active(s, l) == []
  }

  lemma {:induction false} Accepted(s: Server, l: Loop)
    requires AllInv(s) && l != BASE
    ensures TasksKnown(s) && ActiveKnown(s)
    ensures Next(s, Accept(l)) == Enqueue(WithNew(s, l), l, Establish(s.connSequence))
  {
    AllKnown(s);
    hide Inv, RoundsKnown, Execute;
  }

  lemma {:induction false} EstablishedNext(s: Server, c: Conn, l: Loop)
    requires AllInv(s) && c in s.records && s.records[c] == Record(Connecting, l, UNKNOWN, 0, 0, 0, 0, 0, false, 0)
    requires l != BASE && Queue(s, l) == [Establish(c)] && Queue(s, BASE) == [] && Active(s, l) == [] && Active(s, BASE) == []
    ensures var t := Run(s, [RunTask(l)]);
      && Listening(t, c, l) && AtRest(t, l) && t.connSequence == s.connSequence
      && t.records == s.records[c := t.records[c]]
  {
    hide Inv, RoundsKnown, Run;
    AllKnown(s);
    RunOne(s, RunTask(l), []);
    assert [RunTask(l)] == [RunTask(l)] + [];
    RunNone(Next(s, RunTask(l)));
  }

  /** A new connection of an I/O loop listens once it is established. */
  lemma {:induction false} NewListening(s: Server, l: Loop)
    requires AllInv(s) && l != BASE && AtRest(s, l)
    ensures var t, c := Run(s, [Accept(l), RunTask(l)]), s.connSequence;
      && Listening(t, c, l) && AtRest(t, l) && t.connSequence == c + 1
      && c in t.records && t.records == s.records[c := t.records[c]]
  {
    hide Inv, RoundsKnown, Run, Next;
    Accepted(s, l);
    RunOne(s, Accept(l), [RunTask(l)]);
    assert [Accept(l), RunTask(l)] == [Accept(l)] + [RunTask(l)];
    EstablishedNext(Next(s, Accept(l)), s.connSequence, l);
  }

  function AcceptTwo(l: Loop): seq<Action> {
    [Accept(l), RunTask(l)] + [Accept(l), RunTask(l)]
  }

  lemma {:induction false} TwoListening(s: Server, l: Loop)
    requires AllInv(s) && l != BASE && AtRest(s, l)
    ensures var t, c := Run(s, AcceptTwo(l)), s.connSequence; Listening(t, c, l) && Listening(t, c + 1, l) && AtRest(t, l)
  {
    hide AllInv, Run, Queue;
    NewListening(s, l);
    var t := Run(s, [Accept(l), RunTask(l)]);
    NewListening(t, l);
    RunThen(s, [Accept(l), RunTask(l)], [Accept(l), RunTask(l)]);
  }

  /** From the start: two listening connections in one I/O loop, with nothing waiting. */
  lemma {:induction false} ListeningReached(init: Server, l: Loop)
    requires Initial(init) && l != BASE
    ensures var s := Run(init, AcceptTwo(l)); Listening(s, 0, l) && Listening(s, 1, l) && AtRest(s, l)
  {
    hide AllInv, Run, AcceptTwo;
    TwoListening(init, l);
  }

  /** From there: one of them wants no events. */
  lemma {:induction false} IdleReached(init: Server, l: Loop)
    requires Initial(init) && l != BASE
    ensures var s := Run(init, AcceptTwo(l) + [ToggleInterest(0)]);
      && 0 in s.records && IsOpen(s.records[0]) && s.records[0].loop == l && !s.records[0].watch.wanted
      && AtRest(s, l)
  {
    hide AllInv, Run, AcceptTwo;
    ListeningReached(init, l);
    RunThen(init, AcceptTwo(l), [ToggleInterest(0)]);
    AfterToggle(Run(init, AcceptTwo(l)), 0);
  }

  lemma {:induction false} AfterToggle(s: Server, c: Conn)
    requires AllInv(s) && c in s.records && IsOpen(s.records[c])
    ensures Run(s, [ToggleInterest(c)]) == Put(s, c, Toggled(s.records[c]))
  {
    hide Inv, RoundsKnown, Run;
    AllKnown(s);
    RunOne(s, ToggleInterest(c), []);
    assert [ToggleInterest(c)] == [ToggleInterest(c)] + [];
    RunNone(Next(s, ToggleInterest(c)));
  }
}
