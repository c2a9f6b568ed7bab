/**
  `StreamBroadcast` of `acp/stream.go`, one whole operation at a time. A broadcast never blocks: a
  receiver whose buffer is full misses the message. What each receiver gets is specified by its own
  history alone.
 */
module Broadcasts {
  import opened Sequences

  /** `defaultBufferSize` */
  const BUFFER_SIZE := 64

  type Message = string

  // ---- One receiver ----

  datatype LocalEvent = Arrive(message: Message) | Take

  datatype Receiver = Receiver(buffer: seq<Message>, received: seq<Message>)

  function ApplyLocal(r: Receiver, event: LocalEvent): Receiver {
    match event
    case Arrive(message) => if |r.buffer| < BUFFER_SIZE then r.(buffer := r.buffer + [message]) else r
    case Take => if r.buffer == [] then r else Receiver(r.buffer[1..], r.received + [r.buffer[0]])
  }

  function AfterLocal(events: seq<LocalEvent>): Receiver {
    if events == [] then Receiver([], [])
    else ApplyLocal(AfterLocal(events[..|events| - 1]), events[|events| - 1])
  }

  /** How full a buffer is that starts empty, by counting arrivals and takes only. */
  function Occupancy(events: seq<LocalEvent>): nat {
    if events == [] then 0
    else
      var before := Occupancy(events[..|events| - 1]);
      match events[|events| - 1]
      case Arrive(_) => if before == BUFFER_SIZE then before else before + 1
      case Take => if before == 0 then 0 else before - 1
  }

  /** Everything that arrived. */
  function Arrivals(events: seq<LocalEvent>): seq<Message> {
    if events == [] then []
    else
      Arrivals(events[..|events| - 1])
      + match events[|events| - 1] case Arrive(message) => [message] case Take => []
  }

  /** Everything that arrived, minus what arrived while the buffer held 64. */
  function Kept(events: seq<LocalEvent>): seq<Message> {
    if events == [] then []
    else
      var earlier := events[..|events| - 1];
      Kept(earlier)
      + match events[|events| - 1]
        case Arrive(message) => if Occupancy(earlier) == BUFFER_SIZE then [] else [message]
        case Take => []
  }

  /** What a receiver has got, followed by what waits in its buffer, is exactly what it kept. */
  lemma {:induction false} ReceivedAndBufferedIsKept(events: seq<LocalEvent>)
    ensures var r := AfterLocal(events);
            && r.received + r.buffer == Kept(events)
            && |r.buffer| == Occupancy(events) <= 64
  {
    if events != [] {
      var n := |events| - 1;
      ReceivedAndBufferedIsKept(events[..n]);
      var before, r := AfterLocal(events[..n]), AfterLocal(events);
      match events[n]
      case Arrive(message) =>
        if |before.buffer| < BUFFER_SIZE {
          assert r.received + r.buffer == (before.received + before.buffer) + [message];
        }
      case Take =>
        if before.buffer != [] {
          assert r.received + r.buffer == before.received + ([before.buffer[0]] + before.buffer[1..]);
        }
    }
  }

  /** Order is kept. */
  lemma {:induction false} KeptInOrder(events: seq<LocalEvent>)
    ensures Subsequence(Kept(events), Arrivals(events))
  {
    if events != [] {
      var earlier, last := events[..|events| - 1], events[|events| - 1];
      KeptInOrder(earlier);
      assert Kept(earlier) + [] == Kept(earlier);
      if last.Arrive? {
        SubsequenceExtends(Kept(earlier), Arrivals(earlier), last.message);
      } else {
        assert Kept(events) == Kept(earlier) && Arrivals(events) == Arrivals(earlier);
      }
    }
  }

  lemma {:induction false} OccupancyWithinArrivals(events: seq<LocalEvent>)
    ensures Occupancy(events) <= |Kept(events)| <= |Arrivals(events)|
    ensures Occupancy(events) <= BUFFER_SIZE
  {
    if events != [] {
      OccupancyWithinArrivals(events[..|events| - 1]);
    }
  }

  /** The first 64 messages are never lost, whatever the receiver does. */
  lemma {:induction false} First64AreKept(events: seq<LocalEvent>)
    ensures var n := if |Arrivals(events)| < 64 then |Arrivals(events)| else 64;
            n <= |Kept(events)| && Kept(events)[..n] == Arrivals(events)[..n]
  {
    if events != [] {
      var earlier, last := events[..|events| - 1], events[|events| - 1];
      First64AreKept(earlier);
      OccupancyWithinArrivals(earlier);
      if last.Arrive? {
        var n := |Arrivals(earlier)|;
        if n < BUFFER_SIZE {
          assert Kept(earlier)[..n] == Arrivals(earlier)[..n];
          assert Arrivals(events) == Arrivals(earlier) + [last.message]
              && Kept(events) == Kept(earlier) + [last.message];
        }
      } else {
        assert Kept(events) == Kept(earlier) && Arrivals(events) == Arrivals(earlier);
      }
    }
  }

  // ---- All receivers ----

  datatype Event = Subscribe | Broadcast(message: Message) | Recv(receiver: nat) | Close

  datatype Bus = Bus(receivers: seq<Receiver>, closed: bool)

  /** `Recv` is the case where the select takes a message. */
  function Apply(bus: Bus, event: Event): Bus {
    match event
    case Subscribe => bus.(receivers := bus.receivers + [Receiver([], [])])
    case Broadcast(message) =>
      if bus.closed then bus
      else bus.(receivers := seq(|bus.receivers|, i requires 0 <= i < |bus.receivers| =>
                                 ApplyLocal(bus.receivers[i], Arrive(message))))
    case Recv(r) =>
      if r < |bus.receivers| then bus.(receivers := bus.receivers[r := ApplyLocal(bus.receivers[r], Take)]) else bus
    case Close => bus.(closed := true)
  }

  function After(events: seq<Event>): Bus {
    if events == [] then Bus([], false) else Apply(After(events[..|events| - 1]), events[|events| - 1])
  }

  function Subscriptions(events: seq<Event>): nat {
    if events == [] then 0
    else Subscriptions(events[..|events| - 1]) + (if events[|events| - 1].Subscribe? then 1 else 0)
  }

  /** What a run means to receiver `r`: the broadcasts made while it was subscribed and the stream
      open, and its own takes. The takes of other receivers do not appear. */
  function SeenBy(r: nat, events: seq<Event>): seq<LocalEvent> {
    if events == [] then []
    else
      var earlier := events[..|events| - 1];
      SeenBy(r, earlier)
      + if r >= Subscriptions(earlier) then []
        else match events[|events| - 1]
             case Broadcast(message) => if Close in earlier then [] else [Arrive(message)]
             case Recv(q) => if q == r then [Take] else []
             case _ => []
  }

  lemma {:induction false} BusFollowsTheRun(events: seq<Event>)
    ensures |After(events).receivers| == Subscriptions(events)
    ensures After(events).closed <==> Close in events
  {
    if events != [] {
      var n := |events| - 1;
      BusFollowsTheRun(events[..n]);
      assert events == events[..n] + [events[n]];
    }
  }

  lemma LocalStep(events: seq<LocalEvent>, event: LocalEvent)
    ensures AfterLocal(events + [event]) == ApplyLocal(AfterLocal(events), event)
  {
    assert (events + [event])[..|events|] == events;
  }

  /** In every run, each receiver's state is determined by its own history, whatever the speed of
      the others; with `ReceivedAndBufferedIsKept`, it has got and holds exactly what it kept. */
  lemma {:induction false} ReceiversAreIndependent(events: seq<Event>, r: nat)
    ensures |After(events).receivers| == Subscriptions(events)
    ensures r < Subscriptions(events) ==> After(events).receivers[r] == AfterLocal(SeenBy(r, events))
    ensures r >= Subscriptions(events) ==> SeenBy(r, events) == []
  {
    if events != [] {
      var earlier, last := events[..|events| - 1], events[|events| - 1];
      ReceiversAreIndependent(earlier, r);
      BusFollowsTheRun(earlier);
      assert SeenBy(r, earlier) + [] == SeenBy(r, earlier);
      if r < Subscriptions(earlier) {
        match last
        case Broadcast(message) => LocalStep(SeenBy(r, earlier), Arrive(message));
        case Recv(q) => LocalStep(SeenBy(r, earlier), Take);
        case _ =>
      }
    }
  }

  /** In every run, what receiver `r` has got, followed by what waits for it, is everything broadcast
      since its subscription minus exactly what arrived while its own buffer held 64. */
  lemma ReceiverGetsWhatItKept(events: seq<Event>, r: nat)
    requires r < Subscriptions(events)
    ensures |After(events).receivers| == Subscriptions(events)
    ensures var receiver := After(events).receivers[r];
            && receiver.received + receiver.buffer == Kept(SeenBy(r, events))
            && |receiver.buffer| <= BUFFER_SIZE
  {
    ReceiversAreIndependent(events, r);
    ReceivedAndBufferedIsKept(SeenBy(r, events));
  }

  // ---- The objects ----

  /** A Go channel of messages. Sending on a closed channel, or closing one, would panic. */
  class Channel {
    const capacity: nat
    var buffer: seq<Message>
    var closed: bool
    ghost var received: seq<Message>

    constructor (capacity: nat)
      ensures this.capacity == capacity && buffer == [] && received == [] && !closed
    {
      this.capacity := capacity;
      buffer, received, closed := [], [], false;
    }

    method TrySend(message: Message)
      requires !closed
      modifies this
      ensures buffer == if |old(buffer)| < capacity then old(buffer) + [message] else old(buffer)
      ensures received == old(received) && !closed
    {
      if |buffer| < capacity {
        buffer := buffer + [message];
      }
    }

    method Close()
      requires !closed
      modifies this`closed
      ensures closed
    {
      closed := true;
    }
  }

  datatype RecvResult = Received(message: Message) | StreamClosed | Cancelled | Blocked

  class StreamBroadcast {
    var receivers: seq<Channel>
    var closed: bool
    var done: bool
    /** Every channel handed to a receiver, in order of subscription. */
    ghost var handedOut: seq<Channel>

    ghost predicate Valid()
      reads this, handedOut
    {
      && (forall i, j :: 0 <= i < j < |handedOut| ==> handedOut[i] != handedOut[j])
      && (forall ch <- handedOut :: |ch.buffer| <= BUFFER_SIZE && ch.closed == closed)
      && (!closed ==> receivers == handedOut && forall ch <- handedOut :: ch.capacity == BUFFER_SIZE)
      && (closed ==> receivers == [])
      && done == closed
    }

    ghost function View(): Bus
      reads this, handedOut
    {
      Bus(seq(|handedOut|, i requires 0 <= i < |handedOut| reads this, handedOut =>
                Receiver(handedOut[i].buffer, handedOut[i].received)),
          closed)
    }

    constructor ()
      ensures Valid() && View() == Bus([], false) && handedOut == []
    {
      receivers, closed, done, handedOut := [], false, false, [];
    }

    /** The stream of a closed broadcaster is born closed. */
    method Subscribe() returns (ch: Channel)
      requires Valid()
      modifies this
      ensures Valid() && fresh(ch) && handedOut == old(handedOut) + [ch]
      ensures View() == Apply(old(View()), Event.Subscribe)
    {
      if closed {
        ch := new Channel(0);
        ch.Close();
        handedOut := handedOut + [ch];
        return;
      }
      ch := new Channel(BUFFER_SIZE);
      receivers := receivers + [ch];
      handedOut := handedOut + [ch];
    }

    method Broadcast(message: Message)
      requires Valid()
      modifies handedOut
      ensures Valid()
      ensures View() == Apply(old(View()), Event.Broadcast(message))
    {
      if closed {
        return;
      }
      var snapshot := receivers;
      for i := 0 to |snapshot|
        invariant forall j :: 0 <= j < |snapshot| ==>
                  snapshot[j].received == old(snapshot[j].received) && !snapshot[j].closed
        invariant forall j :: i <= j < |snapshot| ==> snapshot[j].buffer == old(snapshot[j].buffer)
        invariant forall j :: 0 <= j < i ==>
                    snapshot[j].buffer == ApplyLocal(Receiver(old(snapshot[j].buffer), old(snapshot[j].received)),
                                                     Arrive(message)).buffer
      {
        snapshot[i].TrySend(message);
      }
    }

    /** A second `Close` does nothing; the first closes `done` and every receiver's channel. */
    method Close()
      requires Valid()
      modifies this, handedOut
      ensures Valid() && handedOut == old(handedOut)
      ensures View() == Apply(old(View()), Event.Close)
    {
      if closed {
        return;
      }
      closed := true;
      done := true;
      var snapshot := receivers;
      for i := 0 to |snapshot|
        invariant closed && done && snapshot == old(receivers) == old(handedOut) == handedOut && receivers == snapshot
        invariant forall j :: 0 <= j < |snapshot| ==>
                    snapshot[j].buffer == old(snapshot[j].buffer) && snapshot[j].received == old(snapshot[j].received)
        invariant forall j :: 0 <= j < |snapshot| ==> snapshot[j].closed == (j < i)
      {
        snapshot[i].Close();
      }
      receivers := [];
    }

    /** One pass through the select of `StreamReceiver.Recv`, which takes any ready branch. */
    method Recv(r: nat, ch: Channel, cancelled: bool) returns (result: RecvResult)
      requires Valid() && r < |handedOut| && handedOut[r] == ch
      modifies ch
      ensures Valid()
      ensures result.Received? ==>
                && View() == Apply(old(View()), Event.Recv(r))
                && old(ch.buffer) != [] && result.message == old(ch.buffer)[0]
      ensures !result.Received? ==> View() == old(View())
      ensures result.StreamClosed? ==> done
      ensures result.Cancelled? ==> cancelled
      ensures result.Blocked? <==> old(ch.buffer) == [] && !done && !cancelled
    {
      var message := ch.buffer != [];
      var end := (ch.buffer == [] && ch.closed) || done;
      if
      case message =>
        result := Received(ch.buffer[0]);
        ch.received := ch.received + [ch.buffer[0]];
        ch.buffer := ch.buffer[1..];
      case end => result := StreamClosed;
      case cancelled => result := Cancelled;
      case !message && !end && !cancelled => result := Blocked;
    }
  }
}
