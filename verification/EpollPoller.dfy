/** Channels and the epoll poller: three records of what a descriptor is watched for (the
    channel, the poller's map, the kernel) that must stay in step. */
module EpollPollers {

  datatype Flag = PollIn | PollPri | PollOut | PollErr | PollHup | PollNval

  const NONE_EVENT: set<Flag> := {}
  const READ_EVENT: set<Flag> := {PollIn, PollPri}
  const WRITE_EVENT: set<Flag> := {PollOut}

  /** Channel::index_ as the poller uses it. */
  datatype Status = New | Added | Deleted

  datatype Operation = EpollCtlAdd | EpollCtlMod | EpollCtlDel

  /** What the kernel holds for a descriptor: the events and the data pointer. */
  datatype Interest = Interest(events: set<Flag>, channel: Channel)

  type Kernel = map<int, Interest>

  /** epoll_ctl fails when it adds a known descriptor, or changes or deletes an unknown one. */
  predicate Legal(kernel: Kernel, op: Operation, fd: int) {
    op == EpollCtlAdd <==> fd !in kernel
  }

  /** The kernel's set after a legal call. */
  function Ctl(kernel: Kernel, op: Operation, fd: int, interest: Interest): Kernel
    requires Legal(kernel, op, fd)
  {
    if op == EpollCtlDel then kernel - {fd} else kernel[fd := interest]
  }

  /** The call UpdateChannel makes, from the channel's status and whether it wants events. */
  function UpdateOperation(index: Status, noneEvent: bool): Operation {
    if index != Added then EpollCtlAdd else if noneEvent then EpollCtlDel else EpollCtlMod
  }

  class Channel {
    const fd: int
    var events: set<Flag>
    var revents: set<Flag>
    var index: Status
    var inUsing: bool

    constructor (fd: int)
      ensures this.fd == fd && events == revents == NONE_EVENT && index == New && !inUsing
    {
      this.fd := fd;
      events, revents, index, inUsing := NONE_EVENT, NONE_EVENT, New, false;
    }

    predicate IsNoneEvent()
      reads this
    {
      events == NONE_EVENT
    }
  }

  /** The kernel's set after an update of `channel` to the mask `events`. */
  function UpdatedKernel(kernel: Kernel, channel: Channel, index: Status, events: set<Flag>): Kernel
    requires Legal(kernel, UpdateOperation(index, events == NONE_EVENT), channel.fd)
  {
    Ctl(kernel, UpdateOperation(index, events == NONE_EVENT), channel.fd, Interest(events, channel))
  }

  function UpdatedIndex(index: Status, events: set<Flag>): Status {
    if index == Added && events == NONE_EVENT then Deleted else Added
  }

  class EpollPoller {
    var channels: map<int, Channel>
    var kernel: Kernel

    /** Every entry of the map is a channel in use, under its own descriptor. */
    ghost predicate Registered()
      reads this, channels.Values
    {
      forall fd :: fd in channels ==> channels[fd].fd == fd && channels[fd].index != New && channels[fd].inUsing
    }

    /** The kernel watches exactly the channels marked as added, for the events they want. */
    ghost predicate InStep()
      reads this, channels.Values
    {
      && (forall fd :: fd in kernel <==> fd in channels && channels[fd].index == Added)
      && (forall fd :: fd in kernel ==> fd in channels && kernel[fd] == Interest(channels[fd].events, channels[fd]))
    }

    ghost predicate Valid()
      reads this, channels.Values
    {
      Registered() && InStep()
    }

    constructor ()
      ensures Valid() && channels == map[] && kernel == map[]
    {
      channels, kernel := map[], map[];
    }

    /** The poller may be told about this channel: it is registered, or it is new and no
        registered channel has its descriptor. A removed channel is neither. */
    predicate Usable(channel: Channel)
      reads this, channel
    {
      if channel.index == New then channel.fd !in channels else channel.fd in channels && channels[channel.fd] == channel
    }

    method Update(op: Operation, channel: Channel)
      requires Legal(kernel, op, channel.fd)   // anything else ends the process
      modifies this`kernel
      ensures kernel == Ctl(old(kernel), op, channel.fd, Interest(channel.events, channel))
    {
      kernel := Ctl(kernel, op, channel.fd, Interest(channel.events, channel));
    }

    /** Tells the kernel about the channel's mask. The assertions on the map are compiled out,
        so the code goes through for any channel for which the call it picks is legal. */
    method UpdateChannel(channel: Channel)
      requires Legal(kernel, UpdateOperation(channel.index, channel.IsNoneEvent()), channel.fd)
      modifies this, channel`index
      ensures channels == if old(channel.index) == New then old(channels)[channel.fd := channel] else old(channels)
      ensures kernel == UpdatedKernel(old(kernel), channel, old(channel.index), channel.events)
      ensures channel.index == UpdatedIndex(old(channel.index), channel.events)
      // on a channel that may be used, it brings the three records into step again
      ensures old(Usable(channel) && channel.inUsing && Registered() && InStepBut(channel)) ==>
        Valid() && channels == old(channels)[channel.fd := channel]
    {
      var index, fd := channel.index, channel.fd;
      if index == New || index == Deleted {
        if index == New {
          channels := channels[fd := channel];
        }
        channel.index := Added;
        Update(EpollCtlAdd, channel);
      } else {
        if channel.IsNoneEvent() {
          Update(EpollCtlDel, channel);
          channel.index := Deleted;
        } else {
          Update(EpollCtlMod, channel);
        }
      }
      assert old(Usable(channel)) ==> channels == old(channels)[fd := channel];
    }

    /** In step but for the events of this channel, which have just changed. */
    ghost predicate InStepBut(channel: Channel)
      reads this, channels.Values
    {
      && (forall fd :: fd in kernel <==> fd in channels && channels[fd].index == Added)
      && (forall fd :: fd in kernel ==> fd in channels && kernel[fd].channel == channels[fd])
      && (forall fd :: fd in kernel && channels[fd] != channel ==> kernel[fd].events == channels[fd].events)
    }

    /** The channel has the mask `events`, by a legal call, and the records are in step. */
    twostate predicate Changed(channel: Channel, events: set<Flag>)
      reads this, channel, channels.Values
    {
      && Valid() && channel.events == events && channels == old(channels)[channel.fd := channel]
      && channel.index == UpdatedIndex(old(channel.index), events)
      && Legal(old(kernel), UpdateOperation(old(channel.index), events == NONE_EVENT), channel.fd)
      && kernel == UpdatedKernel(old(kernel), channel, old(channel.index), events)
    }

    /** Channel::Update after a change of the interest mask. */
    method Change(channel: Channel, events: set<Flag>)
      requires Valid() && Usable(channel)
      modifies this, channel
      ensures Changed(channel, events)
    {
      channel.events := events;
      channel.inUsing := true;
      UpdateChannel(channel);
    }

    method EnableReading(channel: Channel)
      requires Valid() && Usable(channel)
      modifies this, channel
      ensures Changed(channel, old(channel.events) + READ_EVENT) && PollIn in channel.events && PollPri in channel.events
      ensures channel.index == Added && kernel == old(kernel)[channel.fd := Interest(channel.events, channel)]
    {
      assert PollIn in channel.events + READ_EVENT;
      Change(channel, channel.events + READ_EVENT);
    }

    method DisableReading(channel: Channel)
      requires Valid() && Usable(channel)
      modifies this, channel
      ensures Changed(channel, old(channel.events) - READ_EVENT) && PollIn !in channel.events && PollPri !in channel.events
    {
      Change(channel, channel.events - READ_EVENT);
    }

    method EnableWriting(channel: Channel)
      requires Valid() && Usable(channel)
      modifies this, channel
      ensures Changed(channel, old(channel.events) + WRITE_EVENT) && PollOut in channel.events
      ensures channel.index == Added && kernel == old(kernel)[channel.fd := Interest(channel.events, channel)]
    {
      assert PollOut in channel.events + WRITE_EVENT;
      Change(channel, channel.events + WRITE_EVENT);
    }

    method DisableWriting(channel: Channel)
      requires Valid() && Usable(channel)
      modifies this, channel
      ensures Changed(channel, old(channel.events) - WRITE_EVENT) && PollOut !in channel.events
    {
      Change(channel, channel.events - WRITE_EVENT);
    }

    /** An added channel leaves the kernel; any other one, new or deleted, enters it with an
        empty mask. */
    method DisableAll(channel: Channel)
      requires Valid() && Usable(channel)
      modifies this, channel
      ensures Changed(channel, NONE_EVENT)
      ensures old(channel.index) == Added ==> channel.index == Deleted && kernel == old(kernel) - {channel.fd}
      ensures old(channel.index) != Added ==>
        channel.index == Added && kernel == old(kernel)[channel.fd := Interest(NONE_EVENT, channel)]
    {
      Change(channel, NONE_EVENT);
    }

    method RemoveChannel(channel: Channel)
      requires Valid() && channel.fd in channels && channels[channel.fd] == channel
      modifies this
      ensures Valid() && channels == old(channels) - {channel.fd} && kernel == old(kernel) - {channel.fd}
    {
      var fd, index := channel.fd, channel.index;
      if index == Added || index == Deleted {
        if index == Added {
          Update(EpollCtlDel, channel);
        } else {
          assert kernel == kernel - {fd};
        }
        channels := channels - {fd};
      }
    }

    /** Channel::Remove: afterwards neither the poller nor the kernel knows the descriptor. */
    method Remove(channel: Channel)
      requires Valid() && channel.fd in channels && channels[channel.fd] == channel && channel.IsNoneEvent()
      modifies this, channel`inUsing
      ensures Valid() && channel.fd !in channels && channel.fd !in kernel && !channel.inUsing && !Usable(channel)
      ensures old(channel.index) == Added ==> Legal(old(kernel), EpollCtlDel, channel.fd)
      ensures channels == old(channels) - {channel.fd} && kernel == old(kernel) - {channel.fd}
    {
      RemoveChannel(channel);
      channel.inUsing := false;
    }

    /** A channel that is updated after its removal. Its status is still what it was. If that is
        added, the call is illegal and ends the process; if it is deleted, the call is legal and
        leaves the kernel watching a channel that the map does not know. */
    method UpdateAfterRemove(channel: Channel, events: set<Flag>) returns (legal: bool)
      requires Valid() && channel.fd in channels && channels[channel.fd] == channel && channel.IsNoneEvent()
      modifies this, channel
      ensures legal <==> old(channel.index) == Deleted
      ensures legal ==>
        !InStep() && channel.fd !in channels && channel.fd in kernel && kernel[channel.fd] == Interest(events, channel)
      ensures !legal ==> Valid() && !Legal(kernel, UpdateOperation(channel.index, events == NONE_EVENT), channel.fd)
    {
      Remove(channel);
      legal := Legal(kernel, UpdateOperation(channel.index, events == NONE_EVENT), channel.fd);
      if legal {
        channel.events := events;
        channel.inUsing := true;
        UpdateChannel(channel);
      }
    }

    /** Hands out the data pointers of ready descriptors, each with what it is ready for. Every
        one is a registered channel; no other channel is touched. */
    method FillActiveChannels(ready: seq<Ready>) returns (active: seq<Channel>)
      requires Valid() && forall i :: 0 <= i < |ready| ==> ready[i].fd in kernel
      requires forall i, j :: 0 <= i < j < |ready| ==> ready[i].fd != ready[j].fd
      modifies set fd | fd in kernel :: kernel[fd].channel`revents
      ensures |active| == |ready|
      ensures forall i :: 0 <= i < |ready| ==>
        && active[i].fd == ready[i].fd && ready[i].fd in channels && channels[ready[i].fd] == active[i]
        && active[i].index == Added && active[i].revents == ready[i].revents
      ensures forall fd :: fd in channels && channels[fd] !in active ==> channels[fd].revents == old(channels[fd].revents)
    {
      active := [];
      assert forall fd :: fd in kernel ==> fd in channels && kernel[fd].channel == channels[fd] && channels[fd].index == Added;
      for i := 0 to |ready|
        invariant |active| == i
        invariant forall j :: 0 <= j < i ==>
          ready[j].fd in channels && active[j] == channels[ready[j].fd] && active[j].revents == ready[j].revents
        invariant forall fd :: fd in channels && channels[fd] !in active ==> channels[fd].revents == old(channels[fd].revents)
      {
        assert ready[i].fd in kernel;
        var channel := kernel[ready[i].fd].channel;
        channel.revents := ready[i].revents;
        active := active + [channel];
      }
    }

    // ------------------------------------------------------------ whole runs

    /** Everything that is recorded about the channels `cs`. */
    ghost function Look(cs: set<Channel>): View
      reads this, cs
    {
      View(channels, kernel, map c | c in cs :: c.events, map c | c in cs :: c.index)
    }

    ghost function Scope(calls: seq<Call>): set<Channel>
      reads this
    {
      Mentioned(calls) + channels.Values
    }

    /** Any sequence of channel operations. Those on a channel that was removed, or whose
        descriptor another registered channel has, are not made. Every other one makes the
        epoll_ctl call that its status and mask ask for, every such call is legal, and the
        three records are in step after each. */
    method Run(calls: seq<Call>) returns (ghost trace: seq<View>)
      requires Valid()
      modifies this, Mentioned(calls)
      ensures Valid() && IsTrace(trace, calls, old(Scope(calls)))
      ensures trace[0] == old(Look(Scope(calls))) && trace[|calls|] == Look(old(Scope(calls)))
    {
      hide Stepped, ViewInStep;
      ghost var cs := Scope(calls);
      trace := [Look(cs)];
      LookInStep(cs);
      for i := 0 to |calls|
        invariant Valid() && channels.Values <= cs
        invariant IsTrace(trace, calls[..i], cs) && trace[0] == old(Look(Scope(calls))) && trace[i] == Look(cs)
      {
        hide Valid;
        assert calls[i].channel in Mentioned(calls);
        MakeCall(calls[i], cs);
        LookInStep(cs);
        TraceMore(trace, calls, i, cs, Look(cs));
        trace := trace + [Look(cs)];
      }
      assert calls[..|calls|] == calls;
    }

    lemma LookInStep(cs: set<Channel>)
      requires Valid() && channels.Values <= cs
      ensures Recorded(Look(cs), cs) && ViewInStep(Look(cs))
    {
    }

    method MakeCall(call: Call, ghost cs: set<Channel>)
      requires Valid() && channels.Values <= cs && call.channel in cs
      modifies this, call.channel
      ensures Valid() && channels.Values <= cs
      ensures Stepped(old(Look(cs)), call, Look(cs))
    {
      hide Valid, Stepped;
      var channel := call.channel;
      if Usable(channel) && !call.kind.Remove? {
        AdjustMask(call, cs);
      } else if Usable(channel) && channel.index != New && channel.IsNoneEvent() {
        TakeOut(call, cs);
      } else {
        Refused(call, cs);
      }
    }

    lemma Refused(call: Call, cs: set<Channel>)
      requires call.channel in cs
      requires !Usable(call.channel) || (call.kind.Remove? && (call.channel.index == New || !call.channel.IsNoneEvent()))
      ensures Stepped(Look(cs), call, Look(cs))
    {
    }

    method TakeOut(call: Call, ghost cs: set<Channel>)
      requires Valid() && channels.Values <= cs && call.channel in cs && call.kind.Remove?
      requires Usable(call.channel) && call.channel.index != New && call.channel.IsNoneEvent()
      modifies this, call.channel
      ensures Valid() && channels.Values <= cs
      ensures Stepped(old(Look(cs)), call, Look(cs))
    {
      Remove(call.channel);
      ghost var v, w := old(Look(cs)), Look(cs);
      assert w.events == v.events;
      assert w.index == v.index;
    }

    method AdjustMask(call: Call, ghost cs: set<Channel>)
      requires Valid() && channels.Values <= cs && call.channel in cs && !call.kind.Remove?
      requires Usable(call.channel)
      modifies this, call.channel
      ensures Valid() && channels.Values <= cs
      ensures Stepped(old(Look(cs)), call, Look(cs))
    {
      hide Valid, UpdatedKernel, UpdatedIndex, Wanted;
      Adjust(call);
      ghost var c, v, w := call.channel, old(Look(cs)), Look(cs);
      assert w.events == v.events[c := c.events];
      assert w.index == v.index[c := c.index];
    }

    /** An operation that changes the mask. */
    method Adjust(call: Call)
      requires Valid() && Usable(call.channel) && !call.kind.Remove?
      modifies this, call.channel
      ensures Changed(call.channel, Wanted(call.kind, old(call.channel.events)))
    {
      hide Changed, Valid;
      match call.kind
      case EnableReading => EnableReading(call.channel);
      case DisableReading => DisableReading(call.channel);
      case EnableWriting => EnableWriting(call.channel);
      case DisableWriting => DisableWriting(call.channel);
      case DisableAll => DisableAll(call.channel);
    }
  }

  datatype Ready = Ready(fd: int, revents: set<Flag>)

  datatype Kind = EnableReading | DisableReading | EnableWriting | DisableWriting | DisableAll | Remove

  datatype Call = Call(channel: Channel, kind: Kind)

  ghost function Mentioned(calls: seq<Call>): set<Channel> {
    set c | c in calls :: c.channel
  }

  /** The three records at one moment: the poller's map, the kernel's set, and the masks and
      statuses of channels. */
  datatype View = View(channels: map<int, Channel>, kernel: Kernel, events: map<Channel, set<Flag>>, index: map<Channel, Status>)

  ghost predicate Recorded(v: View, cs: set<Channel>) {
    v.events.Keys == v.index.Keys == cs && v.channels.Values <= cs
  }

  ghost predicate ViewInStep(v: View)
    requires v.events.Keys == v.index.Keys && v.channels.Values <= v.events.Keys
  {
    && (forall fd :: fd in v.kernel <==> fd in v.channels && v.index[v.channels[fd]] == Added)
    && (forall fd :: fd in v.kernel ==> fd in v.channels && v.kernel[fd] == Interest(v.events[v.channels[fd]], v.channels[fd]))
  }

  /** The mask that an operation asks for. */
  function Wanted(kind: Kind, events: set<Flag>): set<Flag> {
    match kind
    case EnableReading => events + READ_EVENT
    case DisableReading => events - READ_EVENT
    case EnableWriting => events + WRITE_EVENT
    case DisableWriting => events - WRITE_EVENT
    case DisableAll => NONE_EVENT
    case Remove => events
  }

  /** The channel may be used, and it wants no events if it is to be removed. */
  ghost predicate Permitted(v: View, call: Call)
    requires call.channel in v.events && call.channel in v.index
  {
    var c := call.channel;
    && (if v.index[c] == New then c.fd !in v.channels else c.fd in v.channels && v.channels[c.fd] == c)
    && (call.kind.Remove? ==> v.index[c] != New && v.events[c] == NONE_EVENT)
  }

  /** What one operation does to the records, and that the call it makes is legal. */
  ghost predicate Stepped(v: View, call: Call, w: View)
    requires call.channel in v.events && call.channel in v.index
  {
    var c := call.channel;
    if !Permitted(v, call) then w == v
    else if call.kind.Remove? then
      && (v.index[c] == Added ==> Legal(v.kernel, EpollCtlDel, c.fd))
      && w == v.(channels := v.channels - {c.fd}, kernel := v.kernel - {c.fd})
    else
      var events := Wanted(call.kind, v.events[c]);
      && Legal(v.kernel, UpdateOperation(v.index[c], events == NONE_EVENT), c.fd)
      && w == View(v.channels[c.fd := c], UpdatedKernel(v.kernel, c, v.index[c], events), v.events[c := events],
                   v.index[c := UpdatedIndex(v.index[c], events)])
  }

  /** Each view is the one before after the next operation, and in step. */
  ghost predicate IsTrace(trace: seq<View>, calls: seq<Call>, cs: set<Channel>) {
    && |trace| == |calls| + 1
    && (forall i :: 0 <= i < |trace| ==> Recorded(trace[i], cs) && ViewInStep(trace[i]))
    && (forall i :: 0 <= i < |calls| ==> calls[i].channel in cs && Stepped(trace[i], calls[i], trace[i + 1]))
  }

  lemma TraceMore(trace: seq<View>, calls: seq<Call>, i: nat, cs: set<Channel>, v: View)
    requires i < |calls| && IsTrace(trace, calls[..i], cs) && calls[i].channel in cs
    requires Recorded(v, cs) && ViewInStep(v) && Stepped(trace[i], calls[i], v)
    ensures IsTrace(trace + [v], calls[..i + 1], cs)
  {
    hide Stepped, ViewInStep;
    var t := trace + [v];
    forall j | 0 <= j < i + 1 ensures calls[j].channel in cs && Stepped(t[j], calls[j], t[j + 1]) {
      if j < i {
        assert calls[..i][j] == calls[j];
      }
    }
  }
}
