/** The output side of a connection: direct writes, the output buffer, write interest and the
    half-close. All methods run in the connection's loop thread, except ShutDown. */
module TcpConnections {
  import opened Blocks
  import opened ChainBuffers
  import opened ConnectionStates

  // ---------------------------------------------------------------- what a connection does

  /** The output side at one moment. */
  datatype View = View(
    state: ConnectionState,
    isReading: bool,        // the channel's read interest
    isWriting: bool,        // the channel's write interest
    shuts: nat,             // how often SHUT_WR has been issued; the kernel refuses writes after it
    content: seq<Byte>,     // of the output buffer
    socket: seq<Byte>,      // what the kernel has taken
    accepted: seq<Byte>     // the messages taken on
  )

  /** `behind` is the memory behind a message, `kernel` what a write call may take. */
  datatype Event =
    | Establish
    | Send(message: seq<Byte>, behind: seq<Byte>, kernel: Outcome<nat>)
    | SendBuffer(data: seq<Byte>)
    | Writable(kernel: Outcome<nat>)
    | RequestShutDown
    | RunShutDown
    | Close

  /** The memory behind a message reaches as far as the code reads. */
  predicate Readable(event: Event) {
    event.Send? ==> |event.behind| >= |event.message|
  }

  function Stream(v: View): seq<Byte> {
    v.socket + v.content
  }

  /** How much of a message the kernel gets directly: nothing while data is queued or write
      interest is on, else as much as it takes. */
  function DirectWrite(v: View, len: nat, kernel: Outcome<nat>): (n: nat)
    ensures n <= len
  {
    if v.isWriting || v.content != [] || v.shuts > 0 || kernel.Failed? then 0 else Min(kernel.value, len)
  }

  /** What one event makes of the connection. After a direct write of `n` bytes the code appends
      as many bytes as the whole message is long, starting at the first unwritten one, and so
      reads `n` bytes from behind the message. */
  ghost predicate Step(v: View, event: Event, w: View)
    requires Readable(event)
  {
    match event
    case Establish => w == if v.state == Connecting then v.(state := Connected, isReading := true) else v
    case Send(message, behind, kernel) =>
      var n := DirectWrite(v, |message|, kernel);
      w == if v.state == DisConnected then v
      else if n == |message| then v.(socket := v.socket + message, accepted := v.accepted + message)
      else v.(socket := v.socket + message[..n], content := v.content + (message + behind)[n..n + |message|],
              isWriting := true, accepted := v.accepted + message)
    case SendBuffer(data) =>
      w == if v.state == DisConnected then v
      else v.(content := v.content + data, isWriting := true, accepted := v.accepted + data)
    case Writable(kernel) =>
      if !v.isWriting || v.shuts > 0 || kernel.Failed? then w == v
      else
        && QueueStep(v.content, ChainBuffers.Send(kernel), w.socket[Min(|v.socket|, |w.socket|)..], w.content)
        && w == v.(socket := w.socket, content := w.content, isWriting := w.content != [],
                   shuts := v.shuts + if w.content == [] && v.state == DisConnecting then 1 else 0)
        && v.socket <= w.socket
    case RequestShutDown => w == if v.state == Connected then v.(state := DisConnecting) else v
    case RunShutDown => w == if v.isWriting then v else v.(shuts := v.shuts + 1)
    case Close => w == v.(state := DisConnected, isReading := false, isWriting := false)
  }

  // ---------------------------------------------------------------- what every event keeps

  /** Whatever is queued on a connection that is not closed will be written. */
  predicate Interested(v: View) {
    v.state != DisConnected && v.content != [] ==> v.isWriting
  }

  /** How many bytes too many are appended after a direct write. */
  function Surplus(written: nat, len: nat): nat {
    if 0 < written < len then written else 0
  }

  /** What an event takes on. */
  function Taken(v: View, event: Event): seq<Byte> {
    if v.state == DisConnected then []
    else if event.Send? then event.message
    else if event.SendBuffer? then event.data
    else []
  }

  /** What it adds behind that: bytes of the memory behind the message. */
  function Extra(v: View, event: Event): seq<Byte>
    requires Readable(event)
  {
    if v.state == DisConnected || !event.Send? then []
    else event.behind[..Surplus(DirectWrite(v, |event.message|, event.kernel), |event.message|)]
  }

  lemma {:induction false} SplitMessage(message: seq<Byte>, behind: seq<Byte>, n: nat)
    requires n <= |message| <= |behind|
    ensures message[..n] + (message + behind)[n..n + |message|] == message + behind[..n]
  {
    assert (message + behind)[n..n + |message|] == message[n..] + behind[..n];
    assert message[..n] + message[n..] == message;
  }

  /** A direct write followed by the append, which only happens on an empty buffer. */
  lemma {:induction false} JoinParts(socket: seq<Byte>, content: seq<Byte>, head: seq<Byte>, tail: seq<Byte>, message: seq<Byte>, extra: seq<Byte>)
    requires head + tail == message + extra && (head != [] ==> content == [])
    ensures (socket + head) + (content + tail) == socket + content + message + extra
  {
    if head == [] {
      assert tail == message + extra && socket + head == socket;
    } else {
      assert content + tail == tail && socket + content == socket;
      assert (socket + head) + tail == socket + (message + extra);
    }
  }

  lemma {:induction false} SendStream(v: View, event: Event, w: View)
    requires event.Send? && Readable(event) && Step(v, event, w) && v.state != DisConnected
    ensures Stream(w) == Stream(v) + Taken(v, event) + Extra(v, event)
  {
    hide QueueStep;
    var message, behind := event.message, event.behind;
    var n := DirectWrite(v, |message|, event.kernel);
    if n == |message| {
      assert Extra(v, event) == [];
      if n > 0 {
        assert Stream(w) == v.socket + message && Stream(v) == v.socket;
      } else {
        assert message == [];
      }
    } else {
      SplitMessage(message, behind, n);
      JoinParts(v.socket, v.content, message[..n], (message + behind)[n..n + |message|], message, behind[..n]);
      assert Surplus(n, |message|) == n;
    }
  }

  lemma {:induction false} SendSteps(v: View, event: Event, w: View, tail: seq<Byte>)
    requires event.Send? && Readable(event) && v.state != DisConnected
    requires var n := DirectWrite(v, |event.message|, event.kernel);
      && tail == (event.message + event.behind)[n..n + |event.message|]
      && w.socket == v.socket + event.message[..n] && w.accepted == v.accepted + event.message
      && (if n < |event.message| then w.isWriting && w.content == v.content + tail
          else w.isWriting == v.isWriting && w.content == v.content)
    requires w.state == v.state && w.isReading == v.isReading && w.shuts == v.shuts
    ensures Step(v, event, w)
  {
    hide DirectWrite, QueueStep;
    assert event.message[..|event.message|] == event.message;
  }

  /** One event: the stream grows by the message and by what is read from behind it. */
  lemma {:induction false} StepStream(v: View, event: Event, w: View)
    requires Readable(event) && Step(v, event, w)
    ensures Stream(w) == Stream(v) + Taken(v, event) + Extra(v, event)
    ensures w.accepted == v.accepted + Taken(v, event)
  {
    match event
    case Send(_, _, _) => if v.state != DisConnected { SendStream(v, event, w); }
    case SendBuffer(data) =>
    case Writable(kernel) => assert v.socket + w.socket[|v.socket|..] == w.socket || w == v;
    case _ =>
  }

  lemma {:induction false} StepInterested(v: View, event: Event, w: View)
    requires Readable(event) && Step(v, event, w) && Interested(v)
    ensures Interested(w)
    ensures w.shuts > v.shuts && v.state != DisConnected ==> w.content == []
  {
  }

  // ---------------------------------------------------------------- whole runs

  ghost predicate IsTrace(trace: seq<View>, events: seq<Event>) {
    && |trace| == |events| + 1
    && (forall i :: 0 <= i < |events| ==> Readable(events[i]))
    && (forall i :: 0 <= i < |events| ==> Step(trace[i], events[i], trace[i + 1]))
  }

  /** Every message, followed by what was read from behind it, in order. */
  ghost function AllSent(trace: seq<View>, events: seq<Event>): seq<Byte>
    requires IsTrace(trace, events)
    decreases |events|
  {
    if events == [] then [] else
      var n := |events| - 1;
      AllSent(trace[..n + 1], events[..n]) + Taken(trace[n], events[n]) + Extra(trace[n], events[n])
  }

  /** Every message, in order. */
  ghost function AllTaken(trace: seq<View>, events: seq<Event>): seq<Byte>
    requires IsTrace(trace, events)
    decreases |events|
  {
    if events == [] then [] else AllTaken(trace[..|events|], events[..|events| - 1]) + Taken(trace[|events| - 1], events[|events| - 1])
  }

  /** The stream of every run, exactly. */
  lemma {:induction false} StreamExact(trace: seq<View>, events: seq<Event>)
    requires IsTrace(trace, events)
    ensures Stream(trace[|events|]) == Stream(trace[0]) + AllSent(trace, events)
    ensures trace[|events|].accepted == trace[0].accepted + AllTaken(trace, events)
    decreases |events|
  {
    hide Step, Taken, Extra;
    if events != [] {
      var n := |events| - 1;
      StreamExact(trace[..n + 1], events[..n]);
      StepStream(trace[n], events[n], trace[n + 1]);
    }
  }

  /** No direct write of the run takes a proper part of a message. */
  ghost predicate NoPartialWrite(trace: seq<View>, events: seq<Event>)
    requires IsTrace(trace, events)
  {
    forall i :: 0 <= i < |events| && events[i].Send? && trace[i].state != DisConnected ==>
      DirectWrite(trace[i], |events[i].message|, events[i].kernel) in {0, |events[i].message|}
  }

  lemma {:induction false} ExtraNone(v: View, event: Event)
    requires Readable(event)
    ensures Extra(v, event) == [] <==>
      (event.Send? && v.state != DisConnected ==> DirectWrite(v, |event.message|, event.kernel) in {0, |event.message|})
  {
  }

  lemma {:induction false} SentLength(trace: seq<View>, events: seq<Event>)
    requires IsTrace(trace, events)
    ensures |AllSent(trace, events)| >= |AllTaken(trace, events)|
    ensures NoPartialWrite(trace, events) ==> AllSent(trace, events) == AllTaken(trace, events)
    ensures !NoPartialWrite(trace, events) ==> |AllSent(trace, events)| > |AllTaken(trace, events)|
    decreases |events|
  {
    hide Step, Taken, Extra, DirectWrite;
    if events != [] {
      var n := |events| - 1;
      var front, evs := trace[..n + 1], events[..n];
      SentLength(front, evs);
      ExtraNone(trace[n], events[n]);
      assert NoPartialWrite(trace, events) <==> NoPartialWrite(front, evs) && Extra(trace[n], events[n]) == [] by {
        assert forall i :: 0 <= i < n ==> front[i] == trace[i] && evs[i] == events[i];
      }
    }
  }

  /** In every run: what the kernel has taken and what is queued are the messages accepted, in
      order, if and only if no direct write took a proper part of a message. */
  lemma {:induction false} ConservedIff(trace: seq<View>, events: seq<Event>)
    requires IsTrace(trace, events) && Stream(trace[0]) == trace[0].accepted
    ensures Stream(trace[|events|]) == trace[|events|].accepted <==> NoPartialWrite(trace, events)
  {
    hide IsTrace, NoPartialWrite, AllSent, AllTaken;
    StreamExact(trace, events);
    SentLength(trace, events);
  }

  /** In every run: queued bytes imply write interest at every moment, and SHUT_WR on a
      connection that is not closed finds the output buffer empty. */
  lemma {:induction false} ShutsEmpty(trace: seq<View>, events: seq<Event>)
    requires IsTrace(trace, events) && Interested(trace[0])
    ensures forall i :: 0 <= i < |trace| ==> Interested(trace[i])
    ensures forall i :: 0 <= i < |events| && trace[i + 1].shuts > trace[i].shuts && trace[i].state != DisConnected ==>
      trace[i + 1].content == []
    decreases |events|
  {
    hide Step;
    if events != [] {
      var n := |events| - 1;
      var front, evs := trace[..n + 1], events[..n];
      assert forall i :: 0 <= i < |front| ==> front[i] == trace[i];
      ShutsEmpty(front, evs);
      assert Interested(front[n]);
      StepInterested(trace[n], events[n], trace[n + 1]);
      forall i | 0 <= i < |events| && trace[i + 1].shuts > trace[i].shuts && trace[i].state != DisConnected
        ensures trace[i + 1].content == []
      {
        if i < n {
          assert front[i + 1].shuts > front[i].shuts && front[i].state != DisConnected;
        }
      }
    }
  }

  /** So the half-close follows the last byte: with no partial direct write so far, the kernel
      has every message when SHUT_WR is issued. */
  lemma {:induction false} ShutAfterAll(trace: seq<View>, events: seq<Event>)
    requires IsTrace(trace, events) && events != [] && Interested(trace[0]) && Stream(trace[0]) == trace[0].accepted
    requires trace[|events|].shuts > trace[|events| - 1].shuts && trace[|events| - 1].state != DisConnected
    ensures trace[|events|].socket == trace[|events|].accepted <==> NoPartialWrite(trace, events)
  {
    hide NoPartialWrite, Step;
    ShutsEmpty(trace, events);
    ConservedIff(trace, events);
    var n := |events| - 1;
    assert trace[n + 1].content == [];
  }

  /** The connection is on its way down. */
  predicate Leaving(v: View) {
    v.state == DisConnecting || v.state == DisConnected
  }

  /** ... and SHUT_WR has been issued, or will be with the last byte. */
  predicate ShutOnItsWay(v: View) {
    Leaving(v) && (v.state != DisConnected ==> v.shuts > 0 || v.isWriting)
  }

  lemma {:induction false} StepLeaving(v: View, event: Event, w: View)
    requires Readable(event) && Step(v, event, w)
    ensures Leaving(v) ==> Leaving(w)
    ensures ShutOnItsWay(v) ==> ShutOnItsWay(w)
    ensures event.RunShutDown? && Leaving(v) ==> ShutOnItsWay(w)
    ensures event.RequestShutDown? && v.state == Connected ==> w.state == DisConnecting
  {
  }

  lemma {:induction false} StaysLeaving(trace: seq<View>, events: seq<Event>, i: nat, k: nat)
    requires IsTrace(trace, events) && i <= k < |trace|
    ensures Leaving(trace[i]) ==> Leaving(trace[k])
    ensures ShutOnItsWay(trace[i]) ==> ShutOnItsWay(trace[k])
    decreases k - i
  {
    hide Step, Leaving, ShutOnItsWay;
    if i < k {
      StepLeaving(trace[i], events[i], trace[i + 1]);
      StaysLeaving(trace, events, i + 1, k);
    }
  }

  /** In every run the half-close happens: after a shutdown that found the connection connected,
      and its functor, SHUT_WR has been issued at every moment at which nothing is queued and
      no write interest is on, unless the connection was closed. */
  lemma {:induction false} HalfCloseHappens(trace: seq<View>, events: seq<Event>, i: nat, j: nat, k: nat)
    requires IsTrace(trace, events) && i < j < k < |trace|
    requires events[i].RequestShutDown? && trace[i].state == Connected && events[j].RunShutDown?
    ensures trace[k].state != DisConnected ==> trace[k].state == DisConnecting && (trace[k].shuts > 0 || trace[k].isWriting)
    ensures trace[k].state != DisConnected && Interested(trace[k]) && !trace[k].isWriting ==>
      trace[k].shuts > 0 && trace[k].content == []
  {
    hide Step;
    StepLeaving(trace[i], events[i], trace[i + 1]);
    StaysLeaving(trace, events, i + 1, j);
    StepLeaving(trace[j], events[j], trace[j + 1]);
    StaysLeaving(trace, events, j + 1, k);
  }

  /** Write interest is on exactly while bytes are queued. */
  predicate InterestExact(v: View) {
    v.isWriting <==> v.state != DisConnected && v.content != []
  }

  lemma {:induction false} StepInterestExact(v: View, event: Event, w: View)
    requires Readable(event) && Step(v, event, w) && InterestExact(v)
    ensures InterestExact(w) <==> !(event.SendBuffer? && event.data == [] && v.state != DisConnected && v.content == [])
  {
  }

  /** An empty buffer is never sent on an open connection with nothing queued: that turns write
      interest on for nothing. */
  ghost predicate NoEmptyBuffer(trace: seq<View>, events: seq<Event>)
    requires IsTrace(trace, events)
  {
    forall i :: 0 <= i < |events| ==>
      !(events[i].SendBuffer? && events[i].data == [] && trace[i].state != DisConnected && trace[i].content == [])
  }

  /** In every run, write interest is on exactly while bytes are queued, at every moment, if and
      only if no empty buffer is sent with nothing queued. */
  lemma {:induction false} InterestExactIff(trace: seq<View>, events: seq<Event>)
    requires IsTrace(trace, events) && InterestExact(trace[0])
    ensures (forall i :: 0 <= i < |trace| ==> InterestExact(trace[i])) <==> NoEmptyBuffer(trace, events)
    decreases |events|
  {
    hide Step, InterestExact;
    if events != [] {
      var n := |events| - 1;
      var front, evs := trace[..n + 1], events[..n];
      assert forall i :: 0 <= i < |front| ==> front[i] == trace[i];
      assert forall i :: 0 <= i < n ==> evs[i] == events[i];
      InterestExactIff(front, evs);
      if forall i :: 0 <= i < |front| ==> InterestExact(front[i]) {
        assert InterestExact(front[n]);
        StepInterestExact(trace[n], events[n], trace[n + 1]);
      } else {
        var i :| 0 <= i < |front| && !InterestExact(front[i]);
        assert !InterestExact(trace[i]);
        assert !NoEmptyBuffer(front, evs);
        var j :| 0 <= j < n && evs[j].SendBuffer? && evs[j].data == [] && front[j].state != DisConnected && front[j].content == [];
        assert events[j] == evs[j] && trace[j] == front[j];
      }
    }
  }

  lemma {:induction false} StepAfterShut(v: View, event: Event, w: View)
    requires Readable(event) && Step(v, event, w) && v.shuts > 0
    ensures w.shuts > 0 && w.socket == v.socket && w.content == v.content + Taken(v, event)
    ensures event.SendBuffer? && v.state != DisConnected ==> w.isWriting
  {
    if event.Send? && v.state != DisConnected {
      var message := event.message;
      assert (message + event.behind)[0..0 + |message|] == message;
    }
  }

  /** After the half-close messages are still taken on, as long as the connection is not closed,
      but not a byte of them reaches the kernel: all of it stays in the buffer, in order, and
      write interest stays on. */
  lemma {:induction false} AcceptedInVain(trace: seq<View>, events: seq<Event>)
    requires IsTrace(trace, events) && trace[0].shuts > 0 && Interested(trace[0])
    ensures var last := trace[|events|];
      && last.shuts > 0 && last.socket == trace[0].socket
      && last.content == trace[0].content + AllTaken(trace, events)
      && (last.state != DisConnected && AllTaken(trace, events) != [] ==> last.isWriting)
    decreases |events|
  {
    hide Step, Taken;
    if events != [] {
      var n := |events| - 1;
      AcceptedInVain(trace[..n + 1], events[..n]);
      StepAfterShut(trace[n], events[n], trace[n + 1]);
    }
    ShutsEmpty(trace, events);
    assert Interested(trace[|events|]);
  }

  lemma {:induction false} TraceMore(trace: seq<View>, events: seq<Event>, i: nat, w: View)
    requires i < |events| && IsTrace(trace, events[..i]) && Readable(events[i]) && Step(trace[i], events[i], w)
    ensures IsTrace(trace + [w], events[..i + 1])
  {
    hide Step;
    var t := trace + [w];
    forall j | 0 <= j < i + 1 ensures Readable(events[j]) && Step(t[j], events[j], t[j + 1]) {
      if j < i {
        assert events[..i][j] == events[j];
      }
    }
  }

  // ---------------------------------------------------------------- the code

  class TcpConnection {
    var state: ConnectionState
    const outputBuffer: ChainBuffer
    var isReading: bool
    var isWriting: bool
    var halfClosed: bool            // SHUT_WR has been issued

    ghost var shuts: nat
    ghost var socket: seq<Byte>
    ghost var accepted: seq<Byte>

    ghost function Look(): View
      reads this, outputBuffer
    {
      View(state, isReading, isWriting, shuts, outputBuffer.content, socket, accepted)
    }

    ghost predicate Valid()
      reads this, outputBuffer, outputBuffer.buffers
    {
      outputBuffer.Valid() && Interested(Look()) && (halfClosed <==> shuts > 0)
    }

    constructor ()
      ensures Valid() && Look() == View(Connecting, false, false, 0, [], [], [])
      ensures fresh(outputBuffer) && forall i :: 0 <= i < |outputBuffer.buffers| ==> fresh(outputBuffer.buffers[i])
    {
      outputBuffer := new ChainBuffer();
      state, isReading, isWriting, halfClosed := Connecting, false, false, false;
      shuts, socket, accepted := 0, [], [];
    }

    method EstablishConnection()
      requires Valid() && state == Connecting
      modifies this`state, this`isReading
      ensures Valid() && state == Connected && isReading && Step(old(Look()), Establish, Look())
    {
      state := Connected;
      isReading := true;
    }

    /** write(2) on the socket: an error, or as much of the front as the kernel takes. */
    method Write(data: seq<Byte>, kernel: Outcome<nat>) returns (n: int)
      modifies this`socket
      ensures -1 <= n <= |data|
      ensures socket == old(socket) + if n > 0 then data[..n] else []
      ensures n == if halfClosed || kernel.Failed? then -1 else Min(kernel.value, |data|)
    {
      if halfClosed || kernel.Failed? {
        n := -1;
      } else {
        n := Min(kernel.value, |data|);
        socket := socket + data[..n];
      }
    }

    /** Takes a message on; `behind` is the memory behind it. */
    method SendInLoop(message: seq<Byte>, behind: seq<Byte>, kernel: Outcome<nat>)
      requires Valid() && |behind| >= |message|
      modifies this, outputBuffer, outputBuffer.buffers
      ensures Valid() && outputBuffer.Owned() && Step(old(Look()), Event.Send(message, behind, kernel), Look())
      // the message joins the stream, with as many bytes behind it as a partial direct write took
      ensures var n := DirectWrite(old(Look()), |message|, kernel); state != DisConnected ==>
        Stream(Look()) == Stream(old(Look())) + message + behind[..Surplus(n, |message|)]
      // nothing overtakes: the kernel gets a part of it at once only if nothing is waiting
      ensures old(isWriting) || old(outputBuffer.content) != [] ==> socket == old(socket)
    {
      hide Between, Distinct, Sized, ChainBuffer.Valid, QueueStep, Stream;
      if state == DisConnected {
        return;
      }
      TakeOn(message, behind, kernel);
      SendStream(old(Look()), Event.Send(message, behind, kernel), Look());
    }

    /** The connection is not closed. */
    method TakeOn(message: seq<Byte>, behind: seq<Byte>, kernel: Outcome<nat>)
      requires Valid() && |behind| >= |message| && state != DisConnected
      modifies this, outputBuffer, outputBuffer.buffers
      ensures Valid() && outputBuffer.Owned() && Step(old(Look()), Event.Send(message, behind, kernel), Look())
    {
      hide Between, Distinct, Sized, ChainBuffer.Valid, DirectWrite, Step, Interested;
      var written := WriteDirectly(message, kernel);
      var remaining := |message| - written;
      ghost var tail := (message + behind)[written..written + |message|];
      if remaining > 0 {
        Buffer((message + behind)[written..written + |message|]);
      }
      accepted := accepted + message;
      SendSteps(old(Look()), Event.Send(message, behind, kernel), Look(), tail);
      StepInterested(old(Look()), Event.Send(message, behind, kernel), Look());
    }

    /** If nothing is queued, try writing directly. */
    method WriteDirectly(message: seq<Byte>, kernel: Outcome<nat>) returns (written: nat)
      requires outputBuffer.Valid() && (halfClosed <==> shuts > 0)
      modifies this`socket
      ensures written == DirectWrite(old(Look()), |message|, kernel) && socket == old(socket) + message[..written]
      ensures isWriting || outputBuffer.content != [] ==> written == 0
      ensures !isWriting && outputBuffer.content == [] && !halfClosed && kernel.Done? ==> written == Min(kernel.value, |message|)
    {
      written := 0;
      if !isWriting && outputBuffer.readableBytes == 0 {
        var n := Write(message, kernel);
        if n > 0 {
          written := n;
        }
      }
    }

    /** Queues data and asks for the socket's writability. */
    method Buffer(data: seq<Byte>)
      requires outputBuffer.Valid()
      modifies this`isWriting, outputBuffer, outputBuffer.buffers
      ensures outputBuffer.Valid() && outputBuffer.Owned() && isWriting
      ensures outputBuffer.content == old(outputBuffer.content) + data
    {
      hide Between, Distinct, Sized;
      outputBuffer.Append(data);
      if !isWriting {
        isWriting := true;
      }
    }

    /** Takes on the contents of another buffer, which is not changed. */
    method SendBufferInLoop(buffer: ChainBuffer)
      requires Valid() && buffer.Valid() && buffer != outputBuffer && Apart(outputBuffer.buffers, buffer.buffers)
      modifies this, outputBuffer, outputBuffer.buffers
      ensures Valid() && outputBuffer.Owned() && buffer.Valid()
      ensures Step(old(Look()), SendBuffer(buffer.content), Look())
    {
      hide Between, Distinct, Sized;
      if state == DisConnected {
        return;
      }
      outputBuffer.AppendBuffer(buffer);
      if !isWriting {
        isWriting := true;
      }
      accepted := accepted + buffer.content;
    }

    /** Sends a buffer of the caller's that holds `data`. */
    method SendCopy(data: seq<Byte>)
      requires Valid()
      modifies this, outputBuffer, outputBuffer.buffers
      ensures Valid() && outputBuffer.Owned() && Step(old(Look()), SendBuffer(data), Look())
    {
      hide Valid;
      var buffer := BufferOf(data);
      SendBufferInLoop(buffer);
    }

    static method BufferOf(data: seq<Byte>) returns (buffer: ChainBuffer)
      ensures buffer.Valid() && buffer.content == data && fresh(buffer)
      ensures forall i :: 0 <= i < |buffer.buffers| ==> fresh(buffer.buffers[i])
    {
      buffer := new ChainBuffer();
      buffer.Append(data);
    }

    /** The socket is writable: the front of the buffer goes out, as far as the kernel takes it.
        Write interest ends with the last byte, and then a pending half-close happens. */
    method HandleWrite(kernel: Outcome<nat>)
      requires Valid()
      modifies this, outputBuffer
      ensures Valid() && outputBuffer.Owned() && Step(old(Look()), Writable(kernel), Look())
      ensures Stream(Look()) == Stream(old(Look()))
      ensures isWriting && old(!halfClosed) && kernel.Done? ==> outputBuffer.content != []
      ensures old(isWriting) && !isWriting && state == DisConnecting ==> halfClosed && outputBuffer.content == []
    {
      hide Between, Distinct, Sized, ChainBuffer.Holds, QueueStep;
      if isWriting {
        var done := WriteOut(kernel);
        if done && outputBuffer.readableBytes == 0 {
          isWriting := false;
          if state == DisConnecting {
            ShutDownInLoop();
          }
        }
      }
    }

    /** The front of the buffer goes to the kernel, or the call fails. */
    method WriteOut(kernel: Outcome<nat>) returns (done: bool)
      requires outputBuffer.Valid()
      modifies this`socket, outputBuffer
      ensures outputBuffer.Valid() && outputBuffer.Owned()
      ensures done == (!halfClosed && kernel.Done?)
      ensures old(socket) <= socket && socket + outputBuffer.content == old(socket) + old(outputBuffer.content)
      ensures !done ==> socket == old(socket) && outputBuffer.content == old(outputBuffer.content)
      ensures done ==> QueueStep(old(outputBuffer.content), ChainBuffers.Send(kernel), socket[|old(socket)|..], outputBuffer.content)
    {
      hide Between, Distinct, Sized;
      var r, sent := outputBuffer.WriteFd(if halfClosed then Failed(0) else kernel);
      done := r.Done?;
      socket := socket + sent;
      assert socket[|old(socket)|..] == sent;
      assert old(socket) + (sent + outputBuffer.content) == socket + outputBuffer.content;
    }

    /** Any thread: ask for the half-close. True if ShutDownInLoop is to run in the loop. */
    method ShutDown() returns (queued: bool)
      requires Valid()
      modifies this`state
      ensures Valid() && queued == (old(state) == Connected) && Step(old(Look()), RequestShutDown, Look())
      ensures state == if old(state) == Connected then DisConnecting else old(state)
    {
      queued := state == Connected;
      if queued {
        state := DisConnecting;
      }
    }

    /** SHUT_WR, unless bytes wait to be written. */
    method ShutDownInLoop()
      requires Valid()
      modifies this`halfClosed, this`shuts
      ensures Valid() && Step(old(Look()), RunShutDown, Look())
      ensures shuts > old(shuts) && state != DisConnected ==> outputBuffer.content == []
    {
      if !isWriting {
        halfClosed := true;
        shuts := shuts + 1;
      }
    }

    /** The assertion on the state is compiled out. */
    method HandleClose()
      requires Valid()
      modifies this`state, this`isReading, this`isWriting
      ensures Valid() && state == DisConnected && !isReading && !isWriting && Step(old(Look()), Close, Look())
    {
      state := DisConnected;
      isReading, isWriting := false, false;
    }

    /** Any sequence of events in the loop thread. The connection goes through the views of
        `trace`, each of which is what the event before it makes of the view before that. */
    method Run(events: seq<Event>) returns (ghost trace: seq<View>)
      requires Valid() && forall i :: 0 <= i < |events| ==> Readable(events[i])
      modifies this, outputBuffer, outputBuffer.buffers
      ensures Valid() && IsTrace(trace, events) && trace[0] == old(Look()) && trace[|events|] == Look()
      // the stream, exactly, and when it is right
      ensures Stream(Look()) == Stream(old(Look())) + AllSent(trace, events)
      ensures Stream(old(Look())) == old(accepted) ==>
        (socket + outputBuffer.content == accepted <==> NoPartialWrite(trace, events))
      // queued bytes are always waited for, and the half-close never overtakes them
      ensures forall i :: 0 <= i < |trace| ==> Interested(trace[i])
      ensures forall i :: 0 <= i < |events| && trace[i + 1].shuts > trace[i].shuts && trace[i].state != DisConnected ==>
        trace[i + 1].content == []
    {
      hide Step, AllSent, AllTaken, NoPartialWrite;
      trace := [Look()];
      for i := 0 to |events|
        invariant Valid() && outputBuffer.Owned()
        invariant IsTrace(trace, events[..i]) && trace[0] == old(Look()) && trace[i] == Look()
      {
        Handle(events[i]);
        TraceMore(trace, events, i, Look());
        trace := trace + [Look()];
      }
      assert events[..|events|] == events;
      StreamExact(trace, events);
      ShutsEmpty(trace, events);
      if Stream(trace[0]) == trace[0].accepted {
        ConservedIff(trace, events);
      }
    }

    method Handle(event: Event)
      requires Valid() && Readable(event)
      modifies this, outputBuffer, outputBuffer.buffers
      ensures Valid() && outputBuffer.Owned() && Step(old(Look()), event, Look())
    {
      hide Between, Distinct, Sized, Stream;
      match event
      case Establish =>
        if state == Connecting {
          EstablishConnection();
        }
      case Send(message, behind, kernel) => SendInLoop(message, behind, kernel);
      case SendBuffer(data) => SendCopy(data);
      case Writable(kernel) => HandleWrite(kernel);
      case RequestShutDown => var _ := ShutDown();
      case RunShutDown => ShutDownInLoop();
      case Close => HandleClose();
    }
  }

  /** A connection on which the stream goes wrong: the kernel takes one byte of a message of two
      directly, and the byte behind the message is sent after it. */
  method PartialWriteOverruns(a: Byte, b: Byte, c: Byte, d: Byte) returns (connection: TcpConnection)
    ensures connection.Valid() && connection.state == Connected
    ensures connection.accepted == [a, b] && Stream(connection.Look()) == [a, b, c]
  {
    hide ChainBuffer.Holds;
    connection := new TcpConnection();
    connection.EstablishConnection();
    assert [c, d][..1] == [c];
    connection.SendInLoop([a, b], [c, d], Done(1));
  }
}
