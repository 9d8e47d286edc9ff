/** The asynchronous console writer: non-blocking writes into a bounded channel under a read lock, one
    draining goroutine, and a `Close` that takes the write lock, closes the channel and waits for the
    drain. Messages are texts; a full channel loses the message being written. */
module AsyncWriter {
  import opened Records

  /** What became of a message: sent as the `i`-th one accepted; refused when the channel held `queued`
      messages; or discarded because the writer was closed. */
  datatype Outcome = Sent(i: nat) | Refused(queued: nat) | Discarded

  datatype WriterPc =
    | Checked(msg: string)                    // holds the read lock and saw the writer open
    | Leaving(msg: string, outcome: Outcome)  // tried to send, still holds the read lock
    | Returned(msg: string, outcome: Outcome)

  datatype ClosePc = NotClosed | Marked | ChannelClosed | Closed

  /** `inHand` is the message the drain has received but not yet written; `panicked` is a send on a closed
      channel. History: `accepted` lists the messages sent into the channel, `origin` the writers that
      sent them. */
  datatype Async = Async(
    capacity: nat, closed: bool, channelClosed: bool, queue: seq<string>, inHand: Option<string>, drained: bool,
    sink: seq<string>, writers: seq<WriterPc>, close: ClosePc, panicked: bool,
    accepted: seq<string>, origin: seq<nat>)

  function New(capacity: nat): Async {
    Async(capacity, false, false, [], None, false, [], [], NotClosed, false, [], [])
  }

  ghost predicate HoldsReadLock(pc: WriterPc) {
    pc.Checked? || pc.Leaving?
  }

  /** The write lock can be taken. */
  ghost predicate NoReaders(s: Async) {
    forall i :: 0 <= i < |s.writers| ==> !HoldsReadLock(s.writers[i])
  }

  /** `parked` says whether the drain is waiting in its receive, which matters for an unbuffered channel
      only. */
  datatype Event =
    | WriteEnter(msg: string)
    | WriteSend(i: nat, parked: bool)
    | WriteLeave(i: nat)
    | DrainReceive
    | DrainWrite
    | DrainExit
    | CloseMark
    | CloseChannel
    | CloseReturn

  ghost predicate Enabled(s: Async, ev: Event) {
    match ev
    case WriteEnter(_) => true
    case WriteSend(i, parked) =>
      i < |s.writers| && s.writers[i].Checked? && (parked ==> s.queue == [] && s.inHand.None? && !s.drained)
    case WriteLeave(i) => i < |s.writers| && s.writers[i].Leaving?
    case DrainReceive => !s.drained && s.inHand.None? && s.queue != []
    case DrainWrite => s.inHand.Some?
    case DrainExit => !s.drained && s.inHand.None? && s.queue == [] && s.channelClosed
    case CloseMark => s.close.NotClosed? && NoReaders(s)
    case CloseChannel => s.close.Marked?
    case CloseReturn => s.close.ChannelClosed? && s.drained
  }

  function SetWriter(s: Async, i: nat, pc: WriterPc): Async
    requires i < |s.writers|
  {
    s.(writers := s.writers[i := pc])
  }

  /** The non-blocking send. */
  function Offer(s: Async, i: nat, parked: bool): Async
    requires i < |s.writers| && s.writers[i].Checked?
  {
    var msg := s.writers[i].msg;
    var sent := SetWriter(s, i, Leaving(msg, Sent(|s.accepted|)))
                .(accepted := s.accepted + [msg], origin := s.origin + [i]);
    if s.channelClosed then s.(panicked := true)
    else if |s.queue| < s.capacity then sent.(queue := s.queue + [msg])
    else if s.capacity == 0 && parked then sent.(inHand := Some(msg))
    else SetWriter(s, i, Leaving(msg, Refused(|s.queue|)))
  }

  function Apply(s: Async, ev: Event): Async
    requires Enabled(s, ev)
  {
    match ev
    case WriteEnter(msg) => s.(writers := s.writers + [if s.closed then Returned(msg, Discarded) else Checked(msg)])
    case WriteSend(i, parked) => Offer(s, i, parked)
    case WriteLeave(i) => SetWriter(s, i, Returned(s.writers[i].msg, s.writers[i].outcome))
    case DrainReceive => s.(inHand := Some(s.queue[0]), queue := s.queue[1..])
    case DrainWrite => s.(sink := s.sink + [s.inHand.value], inHand := None)
    case DrainExit => s.(drained := true)
    case CloseMark => s.(closed := true, close := Marked)
    case CloseChannel => s.(channelClosed := true, close := ChannelClosed)
    case CloseReturn => s.(close := Closed)
  }

  ghost predicate Legal(s: Async, evs: seq<Event>)
    decreases |evs|
  {
    evs == [] || (Enabled(s, evs[0]) && Legal(Apply(s, evs[0]), evs[1..]))
  }

  function Run(s: Async, evs: seq<Event>): Async
    requires Legal(s, evs)
    decreases |evs|
  {
    if evs == [] then s else Run(Apply(s, evs[0]), evs[1..])
  }

  ghost predicate Reachable(s: Async) {
    exists capacity, evs :: Legal(New(capacity), evs) && s == Run(New(capacity), evs)
  }

  // ---------- invariant ----------

  function Hand(s: Async): seq<string> {
    if s.inHand.Some? then [s.inHand.value] else []
  }

  ghost predicate QueueInv(s: Async) {
    && !s.panicked
    && (s.closed <==> !s.close.NotClosed?)
    && (s.closed ==> NoReaders(s))
    && (s.channelClosed <==> s.close.ChannelClosed? || s.close.Closed?)
    && s.sink + Hand(s) + s.queue == s.accepted
    && (s.drained ==> s.channelClosed && s.inHand.None? && s.queue == [])
    && (s.close.Closed? ==> s.drained)
    && |s.queue| <= s.capacity
  }

  /** The writer's message is the `i`-th one accepted. */
  ghost predicate SentAs(pc: WriterPc, msg: string, i: nat) {
    !pc.Checked? && pc.msg == msg && pc.outcome == Sent(i)
  }

  ghost predicate WriterInv(s: Async, w: nat)
    requires w < |s.writers|
  {
    var pc := s.writers[w];
    pc.Checked? ||
    match pc.outcome
    case Sent(i) => i < |s.accepted| == |s.origin| && s.accepted[i] == pc.msg && s.origin[i] == w
    case Refused(queued) => queued == s.capacity
    case Discarded => s.closed
  }

  ghost predicate WritersInv(s: Async) {
    && |s.origin| == |s.accepted|
    && (forall i: nat :: i < |s.origin| ==>
          s.origin[i] < |s.writers| && SentAs(s.writers[s.origin[i]], s.accepted[i], i))
    && (forall w: nat :: w < |s.writers| ==> WriterInv(s, w))
  }

  ghost predicate Inv(s: Async) {
    QueueInv(s) && WritersInv(s)
  }

  lemma {:induction false} OfferKeepsQueueInv(s: Async, i: nat, parked: bool)
    requires QueueInv(s) && Enabled(s, WriteSend(i, parked))
    ensures QueueInv(Offer(s, i, parked))
  {
    assert HoldsReadLock(s.writers[i]) && !s.closed;
    var msg := s.writers[i].msg;
    assert s.sink + Hand(s) + (s.queue + [msg]) == (s.sink + Hand(s) + s.queue) + [msg];
    if parked && s.capacity == 0 {
      assert s.sink + [msg] + [] == s.sink + [] + [] + [msg];
    }
  }

  lemma {:induction false} KeepsQueueInv(s: Async, ev: Event)
    requires QueueInv(s) && Enabled(s, ev)
    ensures QueueInv(Apply(s, ev))
  {
    match ev
    case WriteSend(i, parked) => OfferKeepsQueueInv(s, i, parked);
    case DrainReceive =>
      assert s.queue == [s.queue[0]] + s.queue[1..];
      assert s.sink + [] + s.queue == s.sink + [s.queue[0]] + s.queue[1..];
    case DrainWrite =>
      assert s.sink + [s.inHand.value] + s.queue == (s.sink + [s.inHand.value]) + [] + s.queue;
    case _ =>
  }

  /** Writer `w` moves to `pc`; if that sends its message, the message is appended. */
  lemma {:induction false} MoveKeepsWritersInv(s: Async, s': Async, w: nat, pc: WriterPc)
    requires WritersInv(s) && w < |s.writers| && !s.writers[w].Returned?
    requires s'.writers == s.writers[w := pc] && s'.capacity == s.capacity && s'.closed == s.closed
    requires !pc.Checked? && pc.msg == s.writers[w].msg
    requires s.writers[w].Checked? ==>
               if pc.outcome.Sent?
               then pc.outcome.i == |s.accepted| && s'.accepted == s.accepted + [pc.msg] && s'.origin == s.origin + [w]
               else pc.outcome == Refused(s.capacity) && s'.accepted == s.accepted && s'.origin == s.origin
    requires s.writers[w].Leaving? ==>
               pc.outcome == s.writers[w].outcome && s'.accepted == s.accepted && s'.origin == s.origin
    ensures WritersInv(s')
  {
    forall v: nat | v < |s'.writers|
      ensures WriterInv(s', v)
    {
      assert WriterInv(s, v);
    }
    forall i: nat | i < |s'.origin|
      ensures s'.origin[i] < |s'.writers| && SentAs(s'.writers[s'.origin[i]], s'.accepted[i], i)
    {
      assert i < |s.origin| ==> SentAs(s.writers[s.origin[i]], s.accepted[i], i);
    }
  }

  lemma {:induction false} EnterKeepsWritersInv(s: Async, s': Async, pc: WriterPc)
    requires WritersInv(s) && s' == s.(writers := s.writers + [pc])
    requires pc.Checked? || (pc.Returned? && pc.outcome.Discarded? && s.closed)
    ensures WritersInv(s')
  {
    forall v: nat | v < |s'.writers|
      ensures WriterInv(s', v)
    {
      assert v < |s.writers| ==> WriterInv(s, v);
    }
  }

  lemma {:induction false} DrainKeepsWritersInv(s: Async, s': Async)
    requires WritersInv(s) && s'.writers == s.writers && s'.accepted == s.accepted && s'.origin == s.origin
    requires s'.capacity == s.capacity && (s.closed ==> s'.closed)
    ensures WritersInv(s')
  {
    forall v: nat | v < |s'.writers|
      ensures WriterInv(s', v)
    {
      assert WriterInv(s, v);
    }
  }

  lemma {:induction false} KeepsWritersInv(s: Async, ev: Event)
    requires QueueInv(s) && WritersInv(s) && Enabled(s, ev)
    ensures WritersInv(Apply(s, ev))
  {
    var s' := Apply(s, ev);
    match ev
    case WriteEnter(_) =>
      hide WritersInv;
      EnterKeepsWritersInv(s, s', s'.writers[|s.writers|]);
    case WriteSend(i, _) =>
      assert HoldsReadLock(s.writers[i]) && !s.closed;
      hide WritersInv;
      MoveKeepsWritersInv(s, s', i, s'.writers[i]);
    case WriteLeave(i) =>
      hide WritersInv;
      MoveKeepsWritersInv(s, s', i, s'.writers[i]);
    case _ =>
      hide WritersInv;
      DrainKeepsWritersInv(s, s');
  }

  lemma {:induction false} StepKeepsInv(s: Async, ev: Event)
    requires Inv(s) && Enabled(s, ev)
    ensures Inv(Apply(s, ev))
  {
    hide QueueInv, WritersInv, Apply, Enabled;
    KeepsQueueInv(s, ev);
    KeepsWritersInv(s, ev);
  }

  lemma {:induction false} RunKeepsInv(s: Async, evs: seq<Event>)
    requires Inv(s) && Legal(s, evs)
    ensures Inv(Run(s, evs))
    decreases |evs|
  {
    hide Inv, Apply, Enabled;
    if evs == [] {
    } else {
      StepKeepsInv(s, evs[0]);
      RunKeepsInv(Apply(s, evs[0]), evs[1..]);
    }
  }

  lemma {:induction false} ReachableInv(s: Async)
    requires Reachable(s)
    ensures Inv(s)
  {
    var capacity, evs :| Legal(New(capacity), evs) && s == Run(New(capacity), evs);
    RunKeepsInv(New(capacity), evs);
  }

  // ---------- what holds over every run ----------

  /** Nothing is ever sent on the closed channel; the sink has received a prefix of the accepted messages
      in acceptance order; and all of them once `Close` has returned. */
  lemma {:induction false} SinkReceivesAcceptedInOrder(s: Async)
    requires Reachable(s)
    ensures !s.panicked
    ensures s.sink <= s.accepted
    ensures s.close.Closed? ==> s.sink == s.accepted
  {
    ReachableInv(s);
    assert s.sink == s.accepted[..|s.sink|];
    if s.close.Closed? {
      assert s.sink + [] + [] == s.sink;
    }
  }

  ghost predicate HasOutcome(s: Async, w: nat, outcome: Outcome) {
    w < |s.writers| && !s.writers[w].Checked? && s.writers[w].outcome == outcome
  }

  /** The fate of each `Write`. A message that was sent is the accepted message at its position, no other
      call's message is, and once `Close` has returned it is in the sink there. One that was refused met
      a channel filled to its capacity. One that was discarded came after `Close` had begun. */
  lemma {:induction false} FateOfEveryWrite(s: Async, w: nat)
    requires Reachable(s) && w < |s.writers| && !s.writers[w].Checked?
    ensures match s.writers[w].outcome
            case Sent(i) =>
              && i < |s.accepted| && s.accepted[i] == s.writers[w].msg
              && (forall v: nat :: HasOutcome(s, v, Sent(i)) ==> v == w)
              && (s.close.Closed? ==> i < |s.sink| && s.sink[i] == s.writers[w].msg)
            case Refused(queued) => queued == s.capacity
            case Discarded => s.closed
  {
    ReachableInv(s);
    SinkReceivesAcceptedInOrder(s);
    assert WriterInv(s, w);
    forall v: nat | HasOutcome(s, v, s.writers[w].outcome) && s.writers[w].outcome.Sent?
      ensures v == w
    {
      assert WriterInv(s, v);
    }
  }

  /** Conversely every accepted message, and so every one the sink has received, comes from exactly one
      `Write`. */
  lemma {:induction false} EveryMessageHasOneWriter(s: Async, i: nat)
    requires Reachable(s) && i < |s.accepted|
    ensures exists w: nat :: HasOutcome(s, w, Sent(i)) && s.writers[w].msg == s.accepted[i]
              && (forall v: nat :: HasOutcome(s, v, Sent(i)) ==> v == w)
    ensures i < |s.sink| ==> s.sink[i] == s.accepted[i]
  {
    ReachableInv(s);
    SinkReceivesAcceptedInOrder(s);
    var w := s.origin[i];
    assert SentAs(s.writers[w], s.accepted[i], i);
    assert HasOutcome(s, w, Sent(i));
    forall v: nat | HasOutcome(s, v, Sent(i))
      ensures v == w
    {
      assert WriterInv(s, v);
    }
  }

  // ---------- Close cannot be blocked ----------

  /** Once it has marked the writer closed, `Close` and the drain can finish alone. */
  lemma {:induction false} MarkedCloseCanComplete(s: Async) returns (evs: seq<Event>)
    requires QueueInv(s) && s.closed
    ensures Legal(s, evs) && Run(s, evs).close.Closed?
    ensures forall ev :: ev in evs ==> !ev.WriteEnter?
    decreases if s.close.Closed? then 0 else if s.drained then 1 else 2, |s.queue| + |s.queue| + |Hand(s)|,
              if s.close.Marked? then 1 else 0
  {
    if s.close.Closed? {
      evs := [];
    } else {
      var ev :=
        if s.close.Marked? then CloseChannel
        else if s.drained then CloseReturn
        else if s.inHand.Some? then DrainWrite
        else if s.queue != [] then DrainReceive
        else DrainExit;
      KeepsQueueInv(s, ev);
      var rest := MarkedCloseCanComplete(Apply(s, ev));
      evs := [ev] + rest;
      assert evs[1..] == rest;
    }
  }

  /** Steps the writers still have to take before they release the read lock. */
  function StepsToLeave(writers: seq<WriterPc>): nat {
    if writers == [] then 0
    else (if writers[0].Checked? then 2 else if writers[0].Leaving? then 1 else 0) + StepsToLeave(writers[1..])
  }

  lemma {:induction false} OneStepLess(writers: seq<WriterPc>, i: nat, pc: WriterPc)
    requires i < |writers|
    requires (writers[i].Checked? && pc.Leaving?) || (writers[i].Leaving? && pc.Returned?)
    ensures StepsToLeave(writers[i := pc]) + 1 == StepsToLeave(writers)
  {
    if i == 0 {
      assert writers[i := pc][1..] == writers[1..];
    } else {
      assert writers[i := pc][1..] == writers[1..][i - 1 := pc];
      OneStepLess(writers[1..], i - 1, pc);
    }
  }

  /** From every reachable state `Close` can finish: the writers inside leave, without waiting for the
      drain or for each other, `Close` takes the lock, and it and the drain finish alone. No new `Write`
      enters, as the lock admits no reader while a writer waits for it. */
  lemma {:induction false} CloseCanComplete(s: Async) returns (evs: seq<Event>)
    requires Reachable(s)
    ensures Legal(s, evs) && Run(s, evs).close.Closed?
    ensures forall ev :: ev in evs ==> !ev.WriteEnter?
  {
    ReachableInv(s);
    evs := AnyCloseCanComplete(s);
  }

  lemma {:induction false} AnyCloseCanComplete(s: Async) returns (evs: seq<Event>)
    requires QueueInv(s)
    ensures Legal(s, evs) && Run(s, evs).close.Closed?
    ensures forall ev :: ev in evs ==> !ev.WriteEnter?
    decreases StepsToLeave(s.writers)
  {
    if s.closed {
      evs := MarkedCloseCanComplete(s);
    } else {
      var ev, rest;
      if NoReaders(s) {
        ev := CloseMark;
        KeepsQueueInv(s, ev);
        rest := MarkedCloseCanComplete(Apply(s, ev));
      } else {
        var i :| 0 <= i < |s.writers| && HoldsReadLock(s.writers[i]);
        ev := if s.writers[i].Checked? then WriteSend(i, false) else WriteLeave(i);
        KeepsQueueInv(s, ev);
        OneStepLess(s.writers, i, Apply(s, ev).writers[i]);
        rest := AnyCloseCanComplete(Apply(s, ev));
      }
      evs := [ev] + rest;
      assert evs[1..] == rest;
    }
  }

  // ---------- the code's own object ----------

  class Writer {
    const capacity: nat
    var closed: bool
    var ch: seq<string>
    var out: seq<string>
    ghost var accepted: seq<string>

    ghost predicate Valid()
      reads this
    {
      out + ch == accepted && |ch| <= capacity && (closed ==> ch == [])
    }

    constructor (capacity: nat)
      ensures Valid() && this.capacity == capacity && !closed && accepted == []
    {
      this.capacity := capacity;
      closed := false;
      ch, out, accepted := [], [], [];
    }

    /** Always reports success; keeps the message exactly when open and not full. */
    method Write(p: string) returns (n: nat)
      requires Valid()
      modifies this`ch, this`accepted
      ensures Valid() && n == |p|
      ensures accepted == if !closed && |old(ch)| < capacity then old(accepted) + [p] else old(accepted)
    {
      if closed {
        return |p|;
      }
      if |ch| < capacity {
        ch := ch + [p];
        accepted := accepted + [p];
        assert out + (old(ch) + [p]) == (out + old(ch)) + [p];
      }
      n := |p|;
    }

    /** The drain loop until the channel is empty, as it runs after the channel is closed. */
    method Drain()
      requires out + ch == accepted
      modifies this`ch, this`out
      ensures ch == [] && out == accepted
    {
      while |ch| > 0
        invariant out + ch == accepted
        decreases |ch|
      {
        assert out + ch == (out + [ch[0]]) + ch[1..];
        out := out + [ch[0]];
        ch := ch[1..];
      }
      assert out + [] == out;
    }

    method Close()
      requires Valid()
      modifies this
      ensures Valid() && closed && accepted == old(accepted)
      ensures out == accepted
    {
      if closed {
        assert out + [] == out;
        return;
      }
      closed := true;
      Drain();
      assert out + [] == out;
    }
  }
}
