/** The functor queue of an event loop: many threads push, the loop thread polls, swaps the
    queue out and runs it, and an eventfd counter wakes it up. Each step below is atomic in
    the source: a lock section, a system call, or code of the loop thread between them. */
module EventLoops {

  /** A functor, by its identity. */
  type Functor = nat

  /** Where the loop thread stands. */
  datatype Pc =
    | NotLooping      // before Loop()
    | AtPoll          // in Poll, or about to call it
    | Dispatching     // runs the callbacks of active channels
    | AboutToSwap     // in ExecuteFunctors, calling_functors_ is set
    | Calling         // runs the functors it has swapped out
    | Stopped         // has left the loop

  datatype State = State(
    functors: seq<Functor>,
    batch: seq<Functor>,          // what is left of cur_functors
    callingFunctors: bool,
    counter: nat,                 // of the eventfd
    quit: bool,
    pc: Pc,
    waking: nat,                  // other threads between their push or quit and their WakeUp
    ownWaking: bool,              // the loop thread is between its push and its WakeUp
    // history
    pushed: seq<Functor>,         // in lock order
    executed: seq<Functor>,
    outside: nat,                 // pushes, quits and wake-ups by other threads
    polled: bool                  // Poll has returned at least once
  )

  /** A loop that has just been constructed. */
  predicate Initial(s: State) {
    && s.functors == s.batch == s.pushed == s.executed == []
    && s.counter == s.waking == s.outside == 0
    && !s.callingFunctors && !s.quit && !s.ownWaking && !s.polled
    && s.pc == NotLooping
  }

  datatype Step =
    | Push(f: Functor)            // QueueInLoop in another thread, up to the test
    | Wake                        // that thread's WakeUp
    | SpareWake                   // a WakeUp by another thread that pushed nothing
    | Quit                        // Quit in another thread, up to its WakeUp
    | OwnQuit                     // Quit in the loop thread
    | OwnPush(f: Functor)         // QueueInLoop in the loop thread, up to the test
    | OwnWake
    | Start
    | PollReturns
    | ReadWakeup                  // HandleWakeupRead
    | BeginExecute
    | Swap
    | RunOne
    | EndExecute

  /** looping_ */
  predicate Looping(s: State) {
    s.pc != NotLooping && s.pc != Stopped
  }

  predicate Enabled(s: State, step: Step) {
    match step
    case Push(_) => true
    case Wake => s.waking > 0
    case SpareWake => true
    case Quit => true
    case OwnQuit => (s.pc == Dispatching || s.pc == Calling) && !s.ownWaking
    // the loop thread runs user code before Loop, in channel callbacks and in functors
    case OwnPush(_) => (s.pc == NotLooping || s.pc == Dispatching || s.pc == Calling) && !s.ownWaking
    case OwnWake => s.ownWaking
    case Start => s.pc == NotLooping && !s.ownWaking
    case PollReturns => s.pc == AtPoll
    case ReadWakeup => s.pc == Dispatching && !s.ownWaking
    case BeginExecute => s.pc == Dispatching && !s.ownWaking
    case Swap => s.pc == AboutToSwap
    case RunOne => s.pc == Calling && s.batch != [] && !s.ownWaking
    case EndExecute => s.pc == Calling && s.batch == [] && !s.ownWaking
  }

  function Next(s: State, step: Step): State
    requires Enabled(s, step)
  {
    match step
    case Push(f) =>
      s.(functors := s.functors + [f], pushed := s.pushed + [f], waking := s.waking + 1, outside := s.outside + 1)
    case Wake => s.(waking := s.waking - 1, counter := s.counter + 1)
    case SpareWake => s.(counter := s.counter + 1, outside := s.outside + 1)
    case Quit =>
      if !Looping(s) || s.quit then s else s.(quit := true, waking := s.waking + 1, outside := s.outside + 1)
    case OwnQuit => s.(quit := true)
    case OwnPush(f) =>
      // !IsInLoopThread() || calling_functors_
      s.(functors := s.functors + [f], pushed := s.pushed + [f], ownWaking := s.callingFunctors)
    case OwnWake => s.(ownWaking := false, counter := s.counter + 1)
    case Start => s.(pc := if s.quit then Stopped else AtPoll)
    case PollReturns => s.(pc := Dispatching, polled := true)
    case ReadWakeup => s.(counter := 0)
    case BeginExecute => s.(callingFunctors := true, pc := AboutToSwap)
    case Swap => s.(batch := s.functors, functors := [], pc := Calling)
    case RunOne => s.(batch := s.batch[1..], executed := s.executed + [s.batch[0]])
    case EndExecute => s.(callingFunctors := false, pc := if s.quit then Stopped else AtPoll)
  }

  /** A run: steps that are not enabled when their turn comes do not happen. */
  function Exec(s: State, steps: seq<Step>): State
    decreases |steps|
  {
    if steps == [] then s else
      Exec(if Enabled(s, steps[0]) then Next(s, steps[0]) else s, steps[1..])
  }

  // ---------------------------------------------------------------- what every step keeps

  /** Every functor is executed once, in the order in which it was pushed. */
  ghost predicate InOrder(s: State) {
    s.executed + s.batch + s.functors == s.pushed
  }

  /** Functors are queued and nothing is on its way to wake the loop up. */
  predicate Lost(s: State) {
    s.functors != [] && s.counter == 0 && s.waking == 0 && !s.ownWaking
  }

  ghost predicate Inv(s: State) {
    && InOrder(s)
    && (s.callingFunctors <==> s.pc == AboutToSwap || s.pc == Calling)
    && (s.pc != Calling ==> s.batch == [])
    && (s.ownWaking ==> s.pc == Calling)
    // before the first Poll returns no wake-up is consumed and no functor is taken
    && (!s.polled ==> s.counter + s.waking == s.outside && s.functors == s.pushed && (s.pc == NotLooping || s.pc == AtPoll || s.pc == Stopped))
    && (s.polled ==> s.pc != NotLooping)
    && (s.polled && (s.pc == AtPoll || s.pc == Calling || s.pc == Stopped) ==> !Lost(s))
    // quit_ is set while looping only, and the loop is woken up to see it
    && (s.pc == NotLooping ==> !s.quit) && (s.pc == Stopped ==> s.quit)
    && (s.pc == AtPoll && s.quit ==> s.counter + s.waking > 0)
  }

  lemma InitInv(s: State)
    requires Initial(s)
    ensures Inv(s)
  {
  }

  lemma {:induction false} StepInOrder(s: State, step: Step)
    requires InOrder(s) && Enabled(s, step) && (step.Swap? ==> s.batch == [])
    ensures InOrder(Next(s, step))
  {
    match step
    case Push(f) => assert s.executed + s.batch + (s.functors + [f]) == s.pushed + [f];
    case OwnPush(f) => assert s.executed + s.batch + (s.functors + [f]) == s.pushed + [f];
    case Swap => assert s.executed + s.functors + [] == s.executed + [] + s.functors;
    case RunOne =>
      assert s.batch == [s.batch[0]] + s.batch[1..];
      assert s.executed + [s.batch[0]] + s.batch[1..] + s.functors == s.executed + s.batch + s.functors;
    case _ =>
  }

  lemma {:induction false} StepInv(s: State, step: Step)
    requires Inv(s) && Enabled(s, step)
    ensures Inv(Next(s, step))
  {
    hide InOrder;
    StepInOrder(s, step);
  }

  lemma {:induction false} RunInv(s: State, steps: seq<Step>)
    requires Inv(s)
    ensures Inv(Exec(s, steps))
    decreases |steps|
  {
    if steps != [] {
      if Enabled(s, steps[0]) {
        StepInv(s, steps[0]);
        RunInv(Next(s, steps[0]), steps[1..]);
      } else {
        RunInv(s, steps[1..]);
      }
    }
  }

  // ---------------------------------------------------------------- main results

  /** In every run, functors are executed exactly once and in push order. */
  lemma {:induction false} ExecutedInPushOrder(init: State, steps: seq<Step>)
    requires Initial(init)
    ensures var s := Exec(init, steps); s.executed + s.batch + s.functors == s.pushed && s.executed <= s.pushed
  {
    hide Exec;
    InitInv(init);
    RunInv(init, steps);
    var s := Exec(init, steps);
    assert s.pushed == s.executed + (s.batch + s.functors);
  }

  /** Whenever the loop is at Poll, a wake-up is lost in exactly one case: Poll has never
      returned yet, no other thread has queued or woken, and the loop thread itself queued
      functors before it started to loop. */
  lemma {:induction false} LostWakeupExactly(init: State, steps: seq<Step>)
    requires Initial(init)
    ensures var s := Exec(init, steps);
      s.pc == AtPoll ==> (Lost(s) <==> !s.polled && s.outside == 0 && s.pushed != [])
  {
    hide Exec;
    InitInv(init);
    RunInv(init, steps);
  }

  /** The lost case happens: a functor queued by the loop thread before it loops. */
  lemma {:induction false} LostWakeupHappens(init: State, f: Functor)
    requires Initial(init)
    ensures var s := Exec(init, [OwnPush(f), Start]); s.pc == AtPoll && Lost(s)
  {
    ExecOne(init, OwnPush(f), [Start]);
    ExecOne(Next(init, OwnPush(f)), Start, []);
    assert [OwnPush(f), Start] == [OwnPush(f)] + [Start] && [Start] == [Start] + [];
  }

  /** How often the loop thread completes ExecuteFunctors in a run. */
  function Turns(s: State, steps: seq<Step>): nat
    decreases |steps|
  {
    if steps == [] then 0
    else if Enabled(s, steps[0]) then (if steps[0].EndExecute? then 1 else 0) + Turns(Next(s, steps[0]), steps[1..])
    else Turns(s, steps[1..])
  }

  /** From a state at Poll on: all of `queued`, which had been pushed then, is executed or in
      the batch once the queue has been swapped out. */
  ghost predicate Carried(queued: seq<Functor>, s: State) {
    && Inv(s) && queued <= s.pushed
    && (s.pc == Calling ==> queued <= s.executed + s.batch)
  }

  lemma {:induction false} StepCarried(queued: seq<Functor>, s: State, step: Step)
    requires Carried(queued, s) && Enabled(s, step)
    ensures Carried(queued, Next(s, step)) && s.executed <= Next(s, step).executed
    ensures step.EndExecute? ==> queued <= Next(s, step).executed
  {
    StepInv(s, step);
    match step
    case Swap => assert s.executed + s.batch + s.functors == s.executed + s.functors;
    case RunOne => assert s.executed + [s.batch[0]] + s.batch[1..] == s.executed + s.batch;
    case EndExecute => assert s.executed + s.batch == s.executed;
    case _ =>
  }

  lemma {:induction false} ExecutedGrows(s: State, steps: seq<Step>)
    requires Inv(s)
    ensures s.executed <= Exec(s, steps).executed
    decreases |steps|
  {
    if steps != [] {
      if Enabled(s, steps[0]) {
        StepInv(s, steps[0]);
        ExecutedGrows(Next(s, steps[0]), steps[1..]);
      } else {
        ExecutedGrows(s, steps[1..]);
      }
    }
  }

  lemma {:induction false} RunDelivers(queued: seq<Functor>, s: State, steps: seq<Step>)
    requires Carried(queued, s) && Turns(s, steps) > 0
    ensures queued <= Exec(s, steps).executed
    decreases |steps|
  {
    hide Carried, Inv;
    if Enabled(s, steps[0]) {
      var t := Next(s, steps[0]);
      StepCarried(queued, s, steps[0]);
      if steps[0].EndExecute? {
        assert Inv(t) by { CarriedInv(queued, t); }
        ExecutedGrows(t, steps[1..]);
      } else {
        RunDelivers(queued, t, steps[1..]);
      }
    } else {
      RunDelivers(queued, s, steps[1..]);
    }
  }

  lemma CarriedInv(queued: seq<Functor>, s: State)
    requires Carried(queued, s)
    ensures Inv(s)
  {
  }

  /** Whatever the other threads do and whatever functors and callbacks queue meanwhile: once
      the loop has come from Poll through ExecuteFunctors, everything that was queued at the
      Poll has been executed, in order. */
  lemma {:induction false} TurnDelivers(init: State, steps: seq<Step>, more: seq<Step>)
    requires Initial(init) && Exec(init, steps).pc == AtPoll && Turns(Exec(init, steps), more) > 0
    ensures Exec(init, steps).pushed <= Exec(Exec(init, steps), more).executed
  {
    hide Exec, Turns;
    InitInv(init);
    RunInv(init, steps);
    RunDelivers(Exec(init, steps).pushed, Exec(init, steps), more);
  }

  /** The functors that the steps of a run push. */
  function Pushes(s: State, steps: seq<Step>): seq<Functor>
    decreases |steps|
  {
    if steps == [] then []
    else if Enabled(s, steps[0]) then
      (if steps[0].Push? || steps[0].OwnPush? then [steps[0].f] else []) + Pushes(Next(s, steps[0]), steps[1..])
    else Pushes(s, steps[1..])
  }

  lemma {:induction false} PushedAre(s: State, steps: seq<Step>)
    ensures Exec(s, steps).pushed == s.pushed + Pushes(s, steps)
    decreases |steps|
  {
    if steps != [] {
      if Enabled(s, steps[0]) {
        PushedAre(Next(s, steps[0]), steps[1..]);
      } else {
        PushedAre(s, steps[1..]);
      }
    }
  }

  /** In every run, what is executed is a front part of what the threads' calls push, in lock
      order, and the rest is in the batch and in the queue. */
  lemma {:induction false} CallsAreExecuted(init: State, steps: seq<Step>)
    requires Initial(init)
    ensures var s := Exec(init, steps); s.executed + s.batch + s.functors == Pushes(init, steps)
  {
    hide Exec, Pushes;
    PushedAre(init, steps);
    ExecutedInPushOrder(init, steps);
  }

  lemma {:induction false} StaysStopped(s: State, steps: seq<Step>)
    requires Inv(s) && s.pc == Stopped
    ensures Exec(s, steps).pc == Stopped
    decreases |steps|
  {
    hide InOrder;
    if steps != [] {
      if Enabled(s, steps[0]) {
        StepInv(s, steps[0]);
        StaysStopped(Next(s, steps[0]), steps[1..]);
      } else {
        StaysStopped(s, steps[1..]);
      }
    }
  }

  lemma {:induction false} TurnStops(s: State, steps: seq<Step>)
    requires Inv(s) && s.quit && Turns(s, steps) > 0
    ensures Exec(s, steps).pc == Stopped
    decreases |steps|
  {
    hide Inv, InOrder;
    if Enabled(s, steps[0]) {
      StepInv(s, steps[0]);
      if steps[0].EndExecute? {
        StaysStopped(Next(s, steps[0]), steps[1..]);
      } else {
        TurnStops(Next(s, steps[0]), steps[1..]);
      }
    } else {
      TurnStops(s, steps[1..]);
    }
  }

  /** A quit is not missed. In a running loop, whoever asks: if the loop is at Poll then a wake-up
      is on its way, and the loop has ended by the end of the turn it is in, or of the next. */
  lemma {:induction false} QuitStops(init: State, steps: seq<Step>, quit: Step, more: seq<Step>)
    requires Initial(init) && Looping(Exec(init, steps))
    requires (quit.Quit? || quit.OwnQuit?) && Enabled(Exec(init, steps), quit)
    ensures var s := Next(Exec(init, steps), quit);
      && (s.pc == AtPoll ==> s.counter + s.waking > 0)
      && (Turns(s, more) > 0 ==> Exec(s, more).pc == Stopped)
  {
    hide Exec, Turns, InOrder;
    InitInv(init);
    RunInv(init, steps);
    StepInv(Exec(init, steps), quit);
    var s := Next(Exec(init, steps), quit);
    if Turns(s, more) > 0 {
      TurnStops(s, more);
    }
  }

  /** What the loop thread does in one turn when Poll returns and nobody else runs. */
  function Turn(s: State): seq<Step> {
    [PollReturns, ReadWakeup, BeginExecute, Swap] + seq(|s.functors|, _ => RunOne) + [EndExecute]
  }

  /** The loop thread needs nobody else to complete a turn: it is then back at Poll with
      nothing queued, and the counter it cleared is not missed. */
  lemma TurnAlone(s: State)
    requires Inv(s) && s.pc == AtPoll && !s.quit
    ensures var t := Exec(s, Turn(s));
      t.executed == s.pushed && t.functors == [] && t.pc == AtPoll
  {
    hide Exec, Next, Enabled;
    var rest := seq(|s.functors|, _ => RunOne) + [EndExecute];
    var a := UpToCalling(s, rest);
    assert Turn(s) == [PollReturns, ReadWakeup, BeginExecute, Swap] + rest;
    DrainBatch(a);
    assert s.executed + s.batch + s.functors == s.executed + s.functors;
  }

  lemma {:induction false} UpToCalling(s: State, rest: seq<Step>) returns (a: State)
    requires s.pc == AtPoll && !s.ownWaking
    ensures a == s.(pc := Calling, polled := true, counter := 0, callingFunctors := true, batch := s.functors, functors := [])
    ensures Exec(s, [PollReturns, ReadWakeup, BeginExecute, Swap] + rest) == Exec(a, rest)
  {
    hide Exec;
    ExecFour(s, PollReturns, ReadWakeup, BeginExecute, Swap, rest);
    a := Next(Next(Next(Next(s, PollReturns), ReadWakeup), BeginExecute), Swap);
  }

  lemma ExecFour(s: State, p: Step, q: Step, r: Step, t: Step, rest: seq<Step>)
    requires Enabled(s, p) && Enabled(Next(s, p), q) && Enabled(Next(Next(s, p), q), r)
    requires Enabled(Next(Next(Next(s, p), q), r), t)
    ensures Exec(s, [p, q, r, t] + rest) == Exec(Next(Next(Next(Next(s, p), q), r), t), rest)
  {
    hide Exec, Next, Enabled;
    ExecOne(s, p, [q, r, t] + rest);
    ExecOne(Next(s, p), q, [r, t] + rest);
    ExecOne(Next(Next(s, p), q), r, [t] + rest);
    ExecOne(Next(Next(Next(s, p), q), r), t, rest);
    assert [p, q, r, t] + rest == [p] + ([q, r, t] + rest);
    assert [q, r, t] + rest == [q] + ([r, t] + rest);
    assert [r, t] + rest == [r] + ([t] + rest);
  }

  lemma ExecOne(s: State, step: Step, rest: seq<Step>)
    requires Enabled(s, step)
    ensures Exec(s, [step] + rest) == Exec(Next(s, step), rest)
  {
    assert ([step] + rest)[1..] == rest;
  }

  lemma {:induction false} DrainBatch(s: State)
    requires s.pc == Calling && !s.ownWaking && !s.quit
    ensures var t := Exec(s, seq(|s.batch|, _ => RunOne) + [EndExecute]);
      && t == s.(batch := [], executed := s.executed + s.batch, callingFunctors := false, pc := AtPoll)
    decreases |s.batch|
  {
    var steps := seq(|s.batch|, _ => RunOne) + [EndExecute];
    if s.batch == [] {
      assert steps == [EndExecute];
      assert Exec(s, steps) == Exec(Next(s, EndExecute), steps[1..]);
      assert s.executed + s.batch == s.executed;
    } else {
      var n := Next(s, RunOne);
      assert steps[0] == RunOne && steps[1..] == seq(|n.batch|, _ => RunOne) + [EndExecute];
      DrainBatch(n);
      assert s.executed + s.batch == n.executed + n.batch;
    }
  }

  // ---------------------------------------------------------------- the code of the loop thread

  /** The members of EventLoop as the code updates them; `s` is the protocol state they
      belong to. Each assignment below is one step of the protocol. */
  class EventLoop {
    var functors: seq<Functor>
    var callingFunctors: bool
    var quit: bool
    var counter: nat
    ghost var s: State

    ghost predicate Pushed()
      reads this
    {
      && Inv(s)
      && functors == s.functors && callingFunctors == s.callingFunctors && counter == s.counter && quit == s.quit
    }

    ghost predicate Valid()
      reads this
    {
      Pushed() && !s.ownWaking
    }

    constructor ()
      ensures Valid() && Initial(s)
    {
      functors, callingFunctors, quit, counter := [], false, false, 0;
      s := State([], [], false, 0, false, NotLooping, 0, false, [], [], 0, false);
    }

    /** The wake-up that belongs to a push. Whatever is queued, the next Poll will return. */
    method WakeUp(isInLoopThread: bool)
      requires Pushed() && Enabled(s, if isInLoopThread then OwnWake else Wake)
      requires !isInLoopThread ==> !s.ownWaking
      modifies this`counter, this`s
      ensures Valid() && counter > 0 && !Lost(s)
      ensures s.functors == old(s.functors) && s.pc == old(s.pc) && s.batch == old(s.batch)
      ensures s.executed == old(s.executed) && s.pushed == old(s.pushed) && s.polled == old(s.polled)
    {
      ghost var wake := if isInLoopThread then OwnWake else Wake;
      StepInv(s, wake);
      counter := counter + 1;
      s := Next(s, wake);
    }

    /** Called in another thread: push, then wake the loop up. Called in the loop thread: wake
        up only when functors are being executed. */
    method QueueInLoop(f: Functor, isInLoopThread: bool)
      requires Valid() && (isInLoopThread ==> Enabled(s, OwnPush(f)))
      modifies this`functors, this`counter, this`s
      ensures Valid() && functors == old(functors) + [f] && s.pc == old(s.pc) && s.batch == old(s.batch)
      ensures s.executed == old(s.executed) && s.pushed == old(s.pushed) + [f] && s.polled == old(s.polled)
      ensures !isInLoopThread || callingFunctors ==> counter > 0
      ensures isInLoopThread && !callingFunctors ==> counter == old(counter)
    {
      ghost var step := if isInLoopThread then OwnPush(f) else Push(f);
      StepInv(s, step);
      functors := functors + [f];
      s := Next(s, step);
      if !isInLoopThread || callingFunctors {
        WakeUp(isInLoopThread);
      }
    }

    /** In a running loop: the flag is set, and another thread wakes the loop up to see it. */
    method Quit(looping: bool, isInLoopThread: bool)
      requires Valid() && looping == Looping(s) && (isInLoopThread ==> Enabled(s, OwnQuit))
      modifies this`quit, this`counter, this`s
      ensures Valid() && quit == (old(quit) || looping) && functors == old(functors)
      ensures looping && !isInLoopThread && !old(quit) ==> counter == old(counter) + 1
      ensures !looping || isInLoopThread || old(quit) ==> counter == old(counter)
    {
      if !looping {
        return;
      }
      ghost var step := if isInLoopThread then OwnQuit else Step.Quit;
      StepInv(s, step);
      if !quit {
        quit := true;
        s := Next(s, step);
        if !isInLoopThread {
          StepInv(s, Wake);
          counter := counter + 1;
          s := Next(s, Wake);
        }
      }
    }

    method HandleWakeupRead()
      requires Valid() && s.pc == Dispatching
      modifies this`counter, this`s
      ensures Valid() && counter == 0 && s == old(s).(counter := 0)
    {
      StepInv(s, ReadWakeup);
      counter := 0;
      s := Next(s, ReadWakeup);
    }

    /** Executes everything queued at entry, in order. What the functors queue meanwhile
        (`queued[k]` by the k-th) waits for the next turn, and the loop will be woken for it. */
    method ExecuteFunctors(queued: seq<seq<Functor>>)
      requires Valid() && s.pc == Dispatching
      modifies this
      ensures Valid() && s.executed == old(s.pushed) && s.pushed == s.executed + functors
      ensures s.pc == if quit then Stopped else AtPoll
      ensures functors != [] ==> counter > 0
    {
      Begin();
      var curFunctors := TakeAll();
      for k := 0 to |curFunctors|
        invariant Valid() && s.pc == Calling && s.batch == curFunctors[k..] && quit == old(quit)
        invariant s.executed == old(s.executed) + curFunctors[..k] && s.polled
        invariant functors != [] ==> counter > 0
      {
        assert curFunctors[..k + 1] == curFunctors[..k] + [curFunctors[k]];
        StepInv(s, RunOne);
        s := Next(s, RunOne);
        var pushes := if k < |queued| then queued[k] else [];
        for j := 0 to |pushes|
          invariant Valid() && s.pc == Calling && s.batch == curFunctors[k + 1..] && quit == old(quit)
          invariant s.executed == old(s.executed) + curFunctors[..k + 1] && s.polled
          invariant functors != [] ==> counter > 0
        {
          QueueInLoop(pushes[j], true);
        }
      }
      assert curFunctors[..|curFunctors|] == curFunctors;
      StepInv(s, EndExecute);
      callingFunctors := false;
      s := Next(s, EndExecute);
    }

    method Begin()
      requires Valid() && s.pc == Dispatching
      modifies this`callingFunctors, this`s
      ensures Valid() && s == old(s).(callingFunctors := true, pc := AboutToSwap)
    {
      StepInv(s, BeginExecute);
      callingFunctors := true;
      s := Next(s, BeginExecute);
    }

    method TakeAll() returns (cur: seq<Functor>)
      requires Valid() && s.pc == AboutToSwap
      modifies this`functors, this`s
      ensures Valid() && cur == old(functors) && functors == []
      ensures s == old(s).(batch := cur, functors := [], pc := Calling) && s.pushed == s.executed + cur
    {
      StepInv(s, Swap);
      cur, functors := functors, [];
      s := Next(s, Swap);
    }
  }
}
