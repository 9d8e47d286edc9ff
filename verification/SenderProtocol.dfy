/** `KafkaSender`, the address refresher and every transport they create, composed.
    `Send` reads the current transport under the read lock and delivers after releasing it, so a swap
    and the closing of the old transport can fall in between. */
module SenderProtocol {
  import opened Records
  import opened FlushProtocol

  // ---------- state ----------

  datatype SendPc =
    | Holding(tid: nat)              // read the transport, released the read lock
    | Delivering(tid: nat, i: nat)   // accepted as entry i of transport tid, still inside Deliver
    | Acked(tid: nat, i: nat)        // returned nil after being accepted there
    | NothingToSend                  // returned nil without delivering: no rows
    | Failed                         // returned an error

  datatype SendCall = SendCall(entry: Entry, pc: SendPc)

  /** The refresher's single loop, inside one `refreshOnce`. */
  datatype RefreshPc =
    | Idle
    | Created(tid: nat)              // the factory built a transport for the new address
    | Rejected(tid: nat)             // the swap failed: the new transport must be closed
    | ClosingRejected(tid: nat)
    | Swapped(prev: nat)             // installed, current address not yet updated
    | Committed(prev: nat)           // address updated, closer of the old transport not yet started

  datatype SenderClosePc = Open | ClosingTransport | Done

  /** `closes[tid]` counts how often transport `tid` was handed to `Close`; `addrs[tid]` is the address
      it was built for; `origin[tid][i]` is the `Send` call that put entry `i` there (history). */
  datatype System = System(
    transports: seq<Transport>, addrs: seq<string>, closes: seq<nat>, origin: seq<seq<nat>>,
    current: nat, senderClosed: bool, closer: SenderClosePc,
    refresh: RefreshPc, currentAddr: string, sends: seq<SendCall>)

  function Start(addr: string): System {
    System([Fresh()], [addr], [0], [[]], 0, false, Open, Idle, addr, [])
  }

  // ---------- steps ----------

  datatype SysEvent =
    | SendBegin(entry: Entry)
    | SendSkip(k: nat)
    | SendFail(k: nat)
    | SendDeliver(k: nat)
    | SendReturn(k: nat)
    | Inside(tid: nat, ev: Event)
    | RefreshCreate(addr: string)
    | RefreshSwap
    | RefreshCloseRejected
    | RefreshRejectedClosed
    | RefreshCommit
    | RefreshSpawnCloser
    | SenderClose
    | SenderCloseReturn

  /** The sender's write lock is held for the whole of `Close`, including the transport's own `Close`. */
  predicate LockFree(s: System) {
    !s.closer.ClosingTransport?
  }

  ghost predicate SysEnabled(s: System, ev: SysEvent) {
    match ev
    case SendBegin(e) => LockFree(s) && s.current < |s.transports|
    case SendSkip(k) => k < |s.sends| && s.sends[k].pc.Holding? && s.sends[k].entry.records == []
    case SendFail(k) => k < |s.sends| && s.sends[k].pc.Holding?
    case SendDeliver(k) =>
      k < |s.sends| && s.sends[k].pc.Holding? && s.sends[k].entry.records != []
      && s.sends[k].pc.tid < |s.transports| == |s.origin|
    case SendReturn(k) =>
      k < |s.sends| && s.sends[k].pc.Delivering? && s.sends[k].pc.tid < |s.transports|
      && s.sends[k].pc.i < |s.transports[s.sends[k].pc.tid].calls|
      && s.transports[s.sends[k].pc.tid].calls[s.sends[k].pc.i].Returned?
    case Inside(tid, tev) =>
      tid < |s.transports| == |s.closes| && !tev.Accept? && Enabled(s.transports[tid], tev)
      && (tev.CloseMark? ==> s.closes[tid] > 0)
    case RefreshCreate(addr) => s.refresh.Idle? && addr != s.currentAddr
    case RefreshSwap => s.refresh.Created? && LockFree(s)
    case RefreshCloseRejected => s.refresh.Rejected? && s.refresh.tid < |s.closes|
    case RefreshRejectedClosed =>
      s.refresh.ClosingRejected? && s.refresh.tid < |s.transports| && s.transports[s.refresh.tid].close.Closed?
    case RefreshCommit => s.refresh.Swapped? && s.current < |s.addrs|
    case RefreshSpawnCloser => s.refresh.Committed? && s.refresh.prev < |s.closes|
    case SenderClose => s.closer.Open? && s.current < |s.closes|
    case SenderCloseReturn =>
      s.closer.ClosingTransport? && s.current < |s.transports| && s.transports[s.current].close.Closed?
  }

  function SetSend(s: System, k: nat, pc: SendPc): System
    requires k < |s.sends|
  {
    s.(sends := s.sends[k := s.sends[k].(pc := pc)])
  }

  function HandToClose(s: System, tid: nat): System
    requires tid < |s.closes|
  {
    s.(closes := s.closes[tid := s.closes[tid] + 1])
  }

  function SysApply(cfg: BatchConfig, s: System, ev: SysEvent): System
    requires SysEnabled(s, ev)
  {
    match ev
    case SendBegin(e) =>
      s.(sends := s.sends + [SendCall(e, if s.senderClosed then Failed else Holding(s.current))])
    case SendSkip(k) => SetSend(s, k, NothingToSend)
    case SendFail(k) => SetSend(s, k, Failed)
    case SendDeliver(k) =>
      var tid, e := s.sends[k].pc.tid, s.sends[k].entry;
      var t := s.transports[tid];
      if t.core.closed then SetSend(s, k, Failed)
      else
        SetSend(s, k, Delivering(tid, |t.accepted|))
          .(transports := s.transports[tid := Apply(cfg, t, Accept(e))],
            origin := s.origin[tid := s.origin[tid] + [k]])
    case SendReturn(k) => SetSend(s, k, Acked(s.sends[k].pc.tid, s.sends[k].pc.i))
    case Inside(tid, tev) => s.(transports := s.transports[tid := Apply(cfg, s.transports[tid], tev)])
    case RefreshCreate(addr) =>
      s.(transports := s.transports + [Fresh()], addrs := s.addrs + [addr], closes := s.closes + [0],
         origin := s.origin + [[]], refresh := Created(|s.transports|))
    case RefreshSwap =>
      if s.senderClosed then s.(refresh := Rejected(s.refresh.tid))
      else s.(refresh := Swapped(s.current), current := s.refresh.tid)
    case RefreshCloseRejected => HandToClose(s, s.refresh.tid).(refresh := ClosingRejected(s.refresh.tid))
    case RefreshRejectedClosed => s.(refresh := Idle)
    case RefreshCommit => s.(currentAddr := s.addrs[s.current], refresh := Committed(s.refresh.prev))
    case RefreshSpawnCloser => HandToClose(s, s.refresh.prev).(refresh := Idle)
    case SenderClose => HandToClose(s, s.current).(senderClosed := true, closer := ClosingTransport)
    case SenderCloseReturn => s.(closer := Done)
  }

  ghost predicate SysLegal(cfg: BatchConfig, s: System, evs: seq<SysEvent>)
    decreases |evs|
  {
    evs == [] || (SysEnabled(s, evs[0]) && SysLegal(cfg, SysApply(cfg, s, evs[0]), evs[1..]))
  }

  function SysRun(cfg: BatchConfig, s: System, evs: seq<SysEvent>): System
    requires SysLegal(cfg, s, evs)
    decreases |evs|
  {
    if evs == [] then s else SysRun(cfg, SysApply(cfg, s, evs[0]), evs[1..])
  }

  // ---------- invariant ----------

  ghost predicate Shape(s: System) {
    && |s.transports| == |s.addrs| == |s.closes| == |s.origin|
    && s.current < |s.transports|
  }

  ghost predicate TransportsInv(cfg: BatchConfig, s: System) {
    forall tid :: 0 <= tid < |s.transports| ==> Inv(cfg, s.transports[tid])
  }

  /** The transport the refresher is holding: created but not installed, or displaced but not yet
      handed to its closer. */
  ghost predicate InRefreshersHands(s: System, tid: nat) {
    match s.refresh
    case Created(n) => tid == n
    case Rejected(n) => tid == n
    case Swapped(prev) => tid == prev
    case Committed(prev) => tid == prev
    case _ => false
  }

  ghost predicate RefreshInRange(s: System) {
    match s.refresh
    case Idle => true
    case Swapped(prev) => prev < |s.transports|
    case Committed(prev) => prev < |s.transports|
    case Created(n) => n < |s.transports|
    case Rejected(n) => n < |s.transports|
    case ClosingRejected(n) => n < |s.transports|
  }

  ghost predicate OwnershipInv(s: System) {
    && Shape(s)
    && (s.senderClosed <==> !s.closer.Open?)
    && (forall tid: nat :: tid < |s.transports| ==>
          s.closes[tid] == if InRefreshersHands(s, tid) then 0
                           else if tid == s.current && !s.senderClosed then 0 else 1)
    && !InRefreshersHands(s, s.current)
    && RefreshInRange(s)
    && (forall tid: nat :: tid < |s.transports| ==>
          (s.transports[tid].core.closed ==> s.closes[tid] > 0))
    && (s.refresh.Swapped? || s.addrs[s.current] == s.currentAddr)
    && (s.closer.Done? ==> s.transports[s.current].close.Closed?)
  }

  /** Where an accepted call's entry sits. */
  ghost predicate SitsAt(c: SendCall, tid: nat, i: nat) {
    (c.pc.Delivering? || c.pc.Acked?) && c.pc.tid == tid && c.pc.i == i
  }

  /** Accepted calls and accepted entries correspond one to one. */
  ghost predicate PlacementInv(s: System) {
    && Shape(s)
    && (forall tid: nat :: tid < |s.transports| ==> |s.origin[tid]| == |s.transports[tid].accepted|)
    && (forall tid: nat, i: nat :: tid < |s.transports| && i < |s.origin[tid]| ==>
          s.origin[tid][i] < |s.sends| && SitsAt(s.sends[s.origin[tid][i]], tid, i))
    && (forall k: nat :: k < |s.sends| && (s.sends[k].pc.Delivering? || s.sends[k].pc.Acked?) ==>
          var pc := s.sends[k].pc;
          pc.tid < |s.transports| && pc.i < |s.origin[pc.tid]| && s.origin[pc.tid][pc.i] == k
          && s.transports[pc.tid].accepted[pc.i] == s.sends[k].entry && s.sends[k].entry.records != [])
    && (forall k: nat :: k < |s.sends| && s.sends[k].pc.Holding? ==> s.sends[k].pc.tid < |s.transports|)
  }

  ghost predicate SysInv(cfg: BatchConfig, s: System) {
    TransportsInv(cfg, s) && OwnershipInv(s) && PlacementInv(s)
  }

  // ---------- every step keeps it ----------

  lemma {:induction false} KeepsTransportsInv(cfg: BatchConfig, s: System, ev: SysEvent)
    requires Shape(s) && TransportsInv(cfg, s) && SysEnabled(s, ev)
    ensures TransportsInv(cfg, SysApply(cfg, s, ev))
  {
    hide Inv, Apply;
    match ev
    case SendDeliver(k) =>
      var tid := s.sends[k].pc.tid;
      if !s.transports[tid].core.closed {
        StepKeepsInv(cfg, s.transports[tid], Accept(s.sends[k].entry));
      }
    case Inside(tid, tev) => StepKeepsInv(cfg, s.transports[tid], tev);
    case RefreshCreate(addr) => FreshInv(cfg);
    case _ =>
  }

  /** What a transport's own steps leave alone. */
  lemma InsideFrame(cfg: BatchConfig, t: Transport, ev: Event)
    requires Enabled(t, ev)
    ensures var t' := Apply(cfg, t, ev);
            && (t'.core.closed <==> t.core.closed || ev.CloseMark?)
            && (t.close.Closed? ==> t'.close.Closed?)
            && t'.accepted == t.accepted + (if ev.Accept? then [ev.entry] else [])
  {
  }

  lemma {:induction false} InsideKeepsOwnershipInv(cfg: BatchConfig, s: System, tid: nat, ev: Event)
    requires OwnershipInv(s) && tid < |s.transports| && Enabled(s.transports[tid], ev)
    requires ev.CloseMark? ==> s.closes[tid] > 0
    ensures OwnershipInv(s.(transports := s.transports[tid := Apply(cfg, s.transports[tid], ev)]))
  {
    InsideFrame(cfg, s.transports[tid], ev);
    hide Apply;
  }

  /** Ownership does not depend on the `Send` calls or on where their entries went. */
  lemma {:induction false} SendKeepsOwnershipInv(s: System, origin': seq<seq<nat>>, sends': seq<SendCall>)
    requires OwnershipInv(s) && |origin'| == |s.origin|
    ensures OwnershipInv(s.(origin := origin', sends := sends'))
  {
  }

  lemma {:induction false} RefreshKeepsOwnershipInv(cfg: BatchConfig, s: System, ev: SysEvent)
    requires OwnershipInv(s) && SysEnabled(s, ev)
    requires ev.RefreshCreate? || ev.RefreshSwap? || ev.RefreshCommit?
    ensures OwnershipInv(SysApply(cfg, s, ev))
  {
    hide Apply, Enabled;
    if ev.RefreshSwap? {
      assert InRefreshersHands(s, s.refresh.tid);
    }
  }

  lemma {:induction false} RefreshCloserKeepsOwnershipInv(cfg: BatchConfig, s: System, ev: SysEvent)
    requires OwnershipInv(s) && SysEnabled(s, ev)
    requires ev.RefreshCloseRejected? || ev.RefreshRejectedClosed? || ev.RefreshSpawnCloser?
    ensures OwnershipInv(SysApply(cfg, s, ev))
  {
    hide Apply, Enabled;
  }

  lemma {:induction false} SenderCloseKeepsOwnershipInv(cfg: BatchConfig, s: System, ev: SysEvent)
    requires OwnershipInv(s) && SysEnabled(s, ev)
    requires ev.SenderClose? || ev.SenderCloseReturn?
    ensures OwnershipInv(SysApply(cfg, s, ev))
  {
    hide Apply, Enabled;
  }

  lemma {:induction false} KeepsOwnershipInv(cfg: BatchConfig, s: System, ev: SysEvent)
    requires OwnershipInv(s) && SysEnabled(s, ev)
    ensures OwnershipInv(SysApply(cfg, s, ev))
  {
    hide OwnershipInv, Enabled, Apply;
    var s' := SysApply(cfg, s, ev);
    match ev
    case SendBegin(e) => SendKeepsOwnershipInv(s, s.origin, s'.sends);
    case SendSkip(k) => SendKeepsOwnershipInv(s, s.origin, s'.sends);
    case SendFail(k) => SendKeepsOwnershipInv(s, s.origin, s'.sends);
    case SendReturn(k) => SendKeepsOwnershipInv(s, s.origin, s'.sends);
    case SendDeliver(k) => DeliverKeepsOwnershipInv(cfg, s, k);
    case Inside(tid, tev) => InsideKeepsOwnershipInv(cfg, s, tid, tev);
    case RefreshCreate(addr) => RefreshKeepsOwnershipInv(cfg, s, ev);
    case RefreshSwap => RefreshKeepsOwnershipInv(cfg, s, ev);
    case RefreshCommit => RefreshKeepsOwnershipInv(cfg, s, ev);
    case SenderClose => SenderCloseKeepsOwnershipInv(cfg, s, ev);
    case SenderCloseReturn => SenderCloseKeepsOwnershipInv(cfg, s, ev);
    case _ => RefreshCloserKeepsOwnershipInv(cfg, s, ev);
  }

  lemma {:induction false} DeliverKeepsOwnershipInv(cfg: BatchConfig, s: System, k: nat)
    requires OwnershipInv(s) && SysEnabled(s, SendDeliver(k))
    ensures OwnershipInv(SysApply(cfg, s, SendDeliver(k)))
  {
    var tid := s.sends[k].pc.tid;
    var s' := SysApply(cfg, s, SendDeliver(k));
    if s.transports[tid].core.closed {
      SendKeepsOwnershipInv(s, s'.origin, s'.sends);
    } else {
      InsideKeepsOwnershipInv(cfg, s, tid, Accept(s.sends[k].entry));
      hide Apply, Enabled, OwnershipInv;
      SendKeepsOwnershipInv(s.(transports := s'.transports), s'.origin, s'.sends);
    }
  }

  lemma {:induction false} DeliverKeepsPlacementInv(cfg: BatchConfig, s: System, k: nat)
    requires PlacementInv(s) && SysEnabled(s, SendDeliver(k))
    requires !s.transports[s.sends[k].pc.tid].core.closed
    ensures PlacementInv(SysApply(cfg, s, SendDeliver(k)))
  {
    var tid, e := s.sends[k].pc.tid, s.sends[k].entry;
    var i := |s.transports[tid].accepted|;
    InsideFrame(cfg, s.transports[tid], Accept(e));
    hide Apply;
    var s' := SysApply(cfg, s, SendDeliver(k));
    assert s'.origin[tid] == s.origin[tid] + [k];
    forall t: nat, j: nat | t < |s'.transports| && j < |s'.origin[t]|
      ensures s'.origin[t][j] < |s'.sends| && SitsAt(s'.sends[s'.origin[t][j]], t, j)
    {
      if t == tid && j == i {
      } else {
        assert s'.origin[t][j] == s.origin[t][j];
        assert SitsAt(s.sends[s.origin[t][j]], t, j);
      }
    }
  }

  lemma {:induction false} SetSendKeepsPlacementInv(s: System, k: nat, pc: SendPc)
    requires PlacementInv(s) && k < |s.sends|
    requires (s.sends[k].pc.Holding? && (pc.NothingToSend? || pc.Failed?))
          || (s.sends[k].pc.Delivering? && pc == Acked(s.sends[k].pc.tid, s.sends[k].pc.i))
    ensures PlacementInv(SetSend(s, k, pc))
  {
    var s' := SetSend(s, k, pc);
    forall t: nat, j: nat | t < |s'.transports| && j < |s'.origin[t]|
      ensures s'.origin[t][j] < |s'.sends| && SitsAt(s'.sends[s'.origin[t][j]], t, j)
    {
      assert SitsAt(s.sends[s.origin[t][j]], t, j);
    }
  }

  lemma {:induction false} InsideKeepsPlacementInv(cfg: BatchConfig, s: System, tid: nat, ev: Event)
    requires PlacementInv(s) && SysEnabled(s, Inside(tid, ev))
    ensures PlacementInv(SysApply(cfg, s, Inside(tid, ev)))
  {
    InsideFrame(cfg, s.transports[tid], ev);
    hide Apply;
    assert s.transports[tid].accepted + [] == s.transports[tid].accepted;
    var s' := SysApply(cfg, s, Inside(tid, ev));
    assert forall t: nat :: t < |s.transports| ==> s'.transports[t].accepted == s.transports[t].accepted;
  }

  lemma {:induction false} BeginKeepsPlacementInv(s: System, c: SendCall)
    requires PlacementInv(s) && (c.pc.Failed? || c.pc == Holding(s.current))
    ensures PlacementInv(s.(sends := s.sends + [c]))
  {
  }

  lemma {:induction false} SenderKeepsPlacementInv(cfg: BatchConfig, s: System, ev: SysEvent)
    requires PlacementInv(s) && RefreshInRange(s) && SysEnabled(s, ev)
    requires !ev.SendBegin? && !ev.SendSkip? && !ev.SendFail? && !ev.SendDeliver? && !ev.SendReturn? && !ev.Inside?
    ensures PlacementInv(SysApply(cfg, s, ev))
  {
    hide Apply, Enabled, SitsAt;
  }

  lemma {:induction false} KeepsPlacementInv(cfg: BatchConfig, s: System, ev: SysEvent)
    requires OwnershipInv(s) && PlacementInv(s) && SysEnabled(s, ev)
    ensures PlacementInv(SysApply(cfg, s, ev))
  {
    assert RefreshInRange(s);
    hide OwnershipInv, PlacementInv, Apply, Enabled;
    match ev
    case SendBegin(e) => BeginKeepsPlacementInv(s, SysApply(cfg, s, ev).sends[|s.sends|]);
    case SendSkip(k) => SetSendKeepsPlacementInv(s, k, NothingToSend);
    case SendFail(k) => SetSendKeepsPlacementInv(s, k, Failed);
    case SendDeliver(k) =>
      if s.transports[s.sends[k].pc.tid].core.closed {
        SetSendKeepsPlacementInv(s, k, Failed);
      } else {
        DeliverKeepsPlacementInv(cfg, s, k);
      }
    case SendReturn(k) => SetSendKeepsPlacementInv(s, k, Acked(s.sends[k].pc.tid, s.sends[k].pc.i));
    case Inside(tid, tev) => InsideKeepsPlacementInv(cfg, s, tid, tev);
    case _ => SenderKeepsPlacementInv(cfg, s, ev);
  }

  lemma {:induction false} SysStepKeepsInv(cfg: BatchConfig, s: System, ev: SysEvent)
    requires SysInv(cfg, s) && SysEnabled(s, ev)
    ensures SysInv(cfg, SysApply(cfg, s, ev))
  {
    KeepsTransportsInv(cfg, s, ev);
    KeepsOwnershipInv(cfg, s, ev);
    KeepsPlacementInv(cfg, s, ev);
  }

  lemma {:induction false} SysRunKeepsInv(cfg: BatchConfig, s: System, evs: seq<SysEvent>)
    requires SysInv(cfg, s) && SysLegal(cfg, s, evs)
    ensures SysInv(cfg, SysRun(cfg, s, evs))
    decreases |evs|
  {
    if evs == [] {
    } else {
      SysStepKeepsInv(cfg, s, evs[0]);
      SysRunKeepsInv(cfg, SysApply(cfg, s, evs[0]), evs[1..]);
    }
  }

  /** The states some interleaving leads to. */
  ghost predicate Reachable(cfg: BatchConfig, s: System) {
    exists addr, evs :: SysLegal(cfg, Start(addr), evs) && s == SysRun(cfg, Start(addr), evs)
  }

  lemma {:induction false} ReachableInv(cfg: BatchConfig, s: System)
    requires Reachable(cfg, s)
    ensures SysInv(cfg, s)
  {
    hide Inv;
    var addr, evs :| SysLegal(cfg, Start(addr), evs) && s == SysRun(cfg, Start(addr), evs);
    StartTransports(cfg, addr);
    SysRunKeepsInv(cfg, Start(addr), evs);
  }

  lemma {:induction false} StartTransports(cfg: BatchConfig, addr: string)
    ensures TransportsInv(cfg, Start(addr))
  {
    hide Inv;
    FreshInv(cfg);
  }

  // ---------- what holds over every interleaving ----------

  /** A `Send` that returned nil with rows to send put its entry into exactly one transport, at exactly
      one place, and no other call's entry is there. Once that transport's `Close` has returned, the
      entry was taken by exactly one flush and handed over, or dropped by the cap, and never both. */
  lemma {:induction false} AcknowledgedNeverStranded(cfg: BatchConfig, s: System, k: nat)
    requires Reachable(cfg, s) && k < |s.sends| && s.sends[k].pc.Acked?
    ensures s.sends[k].pc.tid < |s.transports|
    ensures var t := s.transports[s.sends[k].pc.tid];
            && s.sends[k].pc.i < |t.accepted|
            && t.accepted[s.sends[k].pc.i] == s.sends[k].entry
            && (t.close.Closed? ==> Settled(cfg, t, s.sends[k].pc.i))
    ensures forall j: nat :: j < |s.sends| && SitsAt(s.sends[j], s.sends[k].pc.tid, s.sends[k].pc.i) ==> j == k
  {
    ReachableInv(cfg, s);
    var t := s.transports[s.sends[k].pc.tid];
    if t.close.Closed? {
      SettledAfterClose(cfg, t, s.sends[k].pc.i);
    }
  }

  /** Conversely every record in any transport came from exactly one `Send` that did not fail. */
  lemma {:induction false} EveryEntryHasOneSender(cfg: BatchConfig, s: System, tid: nat, i: nat)
    requires Reachable(cfg, s) && tid < |s.transports| && i < |s.transports[tid].accepted|
    ensures exists k: nat :: k < |s.sends| && SitsAt(s.sends[k], tid, i)
              && s.sends[k].entry == s.transports[tid].accepted[i]
              && (forall j: nat :: j < |s.sends| && SitsAt(s.sends[j], tid, i) ==> j == k)
  {
    ReachableInv(cfg, s);
    var k := s.origin[tid][i];
    assert SitsAt(s.sends[k], tid, i);
  }

  /** Every transport ever created is the sender's current one, or in the refresher's hands for the
      moment, or has been handed to `Close` exactly once; while the sender is open its current one
      has not. Outside a swap the remembered address is the current transport's. */
  lemma {:induction false} EveryTransportHasOneOwner(cfg: BatchConfig, s: System, tid: nat)
    requires Reachable(cfg, s) && tid < |s.transports|
    ensures |s.closes| == |s.addrs| == |s.transports| && s.current < |s.transports|
    ensures s.closes[tid] <= 1
    ensures s.closes[tid] == 0 <==> (InRefreshersHands(s, tid) || (tid == s.current && !s.senderClosed))
    ensures InRefreshersHands(s, tid) ==> tid != s.current
    ensures s.transports[tid].core.closed ==> s.closes[tid] == 1
    ensures !s.refresh.Swapped? ==> s.addrs[s.current] == s.currentAddr
  {
    ReachableInv(cfg, s);
  }

  /** Nothing leaks: after the sender's `Close` and with no refresh in progress every transport has
      been handed to `Close`, so once those calls have returned every transport is closed and every
      acknowledged entry, wherever it went, is settled. */
  lemma {:induction false} NothingLeftOpen(cfg: BatchConfig, s: System)
    requires Reachable(cfg, s) && s.closer.Done? && s.refresh.Idle?
    ensures |s.closes| == |s.transports|
    ensures forall tid: nat :: tid < |s.transports| ==> s.closes[tid] == 1
    ensures forall tid: nat, i: nat ::
              tid < |s.transports| && s.transports[tid].close.Closed? && i < |s.transports[tid].accepted|
              ==> Settled(cfg, s.transports[tid], i)
  {
    ReachableInv(cfg, s);
    forall tid: nat | tid < |s.transports|
      ensures s.closes[tid] == 1
    {
      assert !InRefreshersHands(s, tid);
    }
    forall tid: nat, i: nat |
      tid < |s.transports| && s.transports[tid].close.Closed? && i < |s.transports[tid].accepted|
      ensures Settled(cfg, s.transports[tid], i)
    {
      SettledAfterClose(cfg, s.transports[tid], i);
    }
  }

  // ---------- no Close is blocked ----------

  function Within(tid: nat, evs: seq<Event>): seq<SysEvent> {
    if evs == [] then [] else [Inside(tid, evs[0])] + Within(tid, evs[1..])
  }

  /** A transport that was handed to `Close` may take its own steps whatever the sender and the
      refresher are doing, and they leave everything else alone. */
  lemma {:induction false} OwnStepsCompose(cfg: BatchConfig, s: System, tid: nat, evs: seq<Event>)
    requires tid < |s.transports| == |s.closes| && s.closes[tid] > 0
    requires Legal(cfg, s.transports[tid], evs) && forall ev :: ev in evs ==> !ev.Accept?
    ensures SysLegal(cfg, s, Within(tid, evs))
    ensures SysRun(cfg, s, Within(tid, evs))
         == s.(transports := s.transports[tid := Run(cfg, s.transports[tid], evs)])
    decreases |evs|
  {
    hide Apply, Enabled;
    if evs == [] {
      assert s.transports[tid := s.transports[tid]] == s.transports;
    } else {
      assert evs[0] in evs;
      var sys := Within(tid, evs);
      assert sys[0] == Inside(tid, evs[0]) && sys[1..] == Within(tid, evs[1..]);
      var s' := SysApply(cfg, s, sys[0]);
      assert s' == s.(transports := s.transports[tid := Apply(cfg, s.transports[tid], evs[0])]);
      forall ev | ev in evs[1..] ensures !ev.Accept? {}
      OwnStepsCompose(cfg, s', tid, evs[1..]);
      var t := Run(cfg, s'.transports[tid], evs[1..]);
      assert s'.transports[tid := t] == s.transports[tid := t];
    }
  }

  lemma {:induction false} TransportCloseInv(cfg: BatchConfig, s: System, tid: nat)
    requires Reachable(cfg, s) && tid < |s.transports|
    ensures CloseInv(s.transports[tid])
  {
    ReachableInv(cfg, s);
    assert Inv(cfg, s.transports[tid]);
  }

  /** Every transport handed to `Close` can finish closing by its own steps alone, in every reachable
      state; then whoever waits for it, the sender's `Close` with the write lock held or the refresher,
      can go on. */
  lemma {:induction false} HandedTransportCanClose(cfg: BatchConfig, s: System, tid: nat) returns (evs: seq<Event>)
    requires Reachable(cfg, s) && tid < |s.transports| == |s.closes| && s.closes[tid] == 1
    ensures SysLegal(cfg, s, Within(tid, evs)) && forall ev :: ev in evs ==> !ev.Accept?
    ensures OnlyCloses(s, SysRun(cfg, s, Within(tid, evs)), tid)
  {
    TransportCloseInv(cfg, s, tid);
    hide *;
    evs := CanClose(cfg, s.transports[tid]);
    OwnStepsCompose(cfg, s, tid, evs);
    Unblocks(s, tid, Run(cfg, s.transports[tid], evs));
  }

  /** From `s` to `s'` transport `tid` became closed, nothing else happened, and nobody waits for it any more. */
  ghost predicate OnlyCloses(s: System, s': System, tid: nat) {
    && tid < |s.transports| && tid < |s'.transports|
    && s' == s.(transports := s.transports[tid := s'.transports[tid]])
    && s'.transports[tid].close.Closed?
    && (s.closer.ClosingTransport? && s.current == tid ==> SysEnabled(s', SenderCloseReturn))
    && (s.refresh == ClosingRejected(tid) ==> SysEnabled(s', RefreshRejectedClosed))
  }

  lemma Unblocks(s: System, tid: nat, t: Transport)
    requires tid < |s.transports| && t.close.Closed?
    ensures OnlyCloses(s, s.(transports := s.transports[tid := t]), tid)
  {
  }

  // ---------- winding down ----------

  /** Steps that finish what has begun: no `Send` takes a step and no new refresh begins. */
  predicate WindingDown(ev: SysEvent) {
    match ev
    case Inside(_, tev) => !tev.Accept?
    case RefreshSwap => true
    case RefreshCloseRejected => true
    case RefreshRejectedClosed => true
    case RefreshCommit => true
    case RefreshSpawnCloser => true
    case SenderCloseReturn => true
    case _ => false
  }

  ghost predicate OnlyWindingDown(evs: seq<SysEvent>) {
    forall ev :: ev in evs ==> WindingDown(ev)
  }

  ghost predicate WindsDownTo(cfg: BatchConfig, s: System, s': System) {
    exists evs :: SysLegal(cfg, s, evs) && s' == SysRun(cfg, s, evs) && OnlyWindingDown(evs)
  }

  lemma {:induction false} SysRunConcat(cfg: BatchConfig, s: System, a: seq<SysEvent>, b: seq<SysEvent>)
    requires SysLegal(cfg, s, a) && SysLegal(cfg, SysRun(cfg, s, a), b)
    ensures SysLegal(cfg, s, a + b) && SysRun(cfg, s, a + b) == SysRun(cfg, SysRun(cfg, s, a), b)
    decreases |a|
  {
    hide SysApply, SysEnabled;
    if a == [] {
      assert a + b == b;
    } else {
      assert (a + b)[0] == a[0] && (a + b)[1..] == a[1..] + b;
      SysRunConcat(cfg, SysApply(cfg, s, a[0]), a[1..], b);
    }
  }

  lemma WindsDownStep(cfg: BatchConfig, s: System, ev: SysEvent)
    requires SysEnabled(s, ev) && WindingDown(ev)
    ensures WindsDownTo(cfg, s, SysApply(cfg, s, ev))
  {
    hide SysApply, SysEnabled, WindingDown;
    var evs := [ev];
    assert evs[1..] == [] && SysLegal(cfg, SysApply(cfg, s, ev), []);
    assert SysLegal(cfg, s, evs) && SysRun(cfg, s, evs) == SysApply(cfg, s, ev);
    assert OnlyWindingDown(evs);
  }

  lemma WindsDownTransitive(cfg: BatchConfig, s: System, s1: System, s2: System)
    requires WindsDownTo(cfg, s, s1) && WindsDownTo(cfg, s1, s2)
    ensures WindsDownTo(cfg, s, s2)
  {
    hide WindingDown;
    var a :| SysLegal(cfg, s, a) && s1 == SysRun(cfg, s, a) && OnlyWindingDown(a);
    var b :| SysLegal(cfg, s1, b) && s2 == SysRun(cfg, s1, b) && OnlyWindingDown(b);
    SysRunConcat(cfg, s, a, b);
    assert OnlyWindingDown(a + b);
  }

  lemma WindsDownReachable(cfg: BatchConfig, s: System, s': System)
    requires Reachable(cfg, s) && WindsDownTo(cfg, s, s')
    ensures Reachable(cfg, s')
  {
    hide SysLegal, SysRun, OnlyWindingDown;
    var addr, a :| SysLegal(cfg, Start(addr), a) && s == SysRun(cfg, Start(addr), a);
    var b :| SysLegal(cfg, s, b) && s' == SysRun(cfg, s, b) && OnlyWindingDown(b);
    SysRunConcat(cfg, Start(addr), a, b);
  }

  /** One step of winding down, appended to what came before. */
  lemma ThenStep(cfg: BatchConfig, s: System, s1: System, ev: SysEvent)
    requires Reachable(cfg, s1) && WindsDownTo(cfg, s, s1) && SysEnabled(s1, ev) && WindingDown(ev)
    ensures WindsDownTo(cfg, s, SysApply(cfg, s1, ev)) && Reachable(cfg, SysApply(cfg, s1, ev))
  {
    hide *;
    WindsDownStep(cfg, s1, ev);
    WindsDownTransitive(cfg, s, s1, SysApply(cfg, s1, ev));
    WindsDownReachable(cfg, s1, SysApply(cfg, s1, ev));
  }

  lemma WindsDownReflexive(cfg: BatchConfig, s: System)
    ensures WindsDownTo(cfg, s, s)
  {
    assert SysLegal(cfg, s, []) && SysRun(cfg, s, []) == s && OnlyWindingDown([]);
  }

  lemma {:induction false} OwnStepsWindDown(tid: nat, evs: seq<Event>)
    requires forall ev :: ev in evs ==> !ev.Accept?
    ensures OnlyWindingDown(Within(tid, evs))
  {
    if evs == [] {
    } else {
      assert evs[0] in evs;
      forall ev | ev in evs[1..] ensures !ev.Accept? {}
      OwnStepsWindDown(tid, evs[1..]);
    }
  }

  /** One transport closes and nothing else happens. */
  lemma CloseOne(cfg: BatchConfig, s: System, tid: nat) returns (s': System)
    requires Reachable(cfg, s) && tid < |s.transports| == |s.closes| && s.closes[tid] == 1
    ensures WindsDownTo(cfg, s, s') && Reachable(cfg, s') && OnlyCloses(s, s', tid)
  {
    hide *;
    var evs := HandedTransportCanClose(cfg, s, tid);
    OwnStepsWindDown(tid, evs);
    s' := SysRun(cfg, s, Within(tid, evs));
    RunsTo(cfg, s, Within(tid, evs));
    WindsDownReachable(cfg, s, s');
  }

  lemma RunsTo(cfg: BatchConfig, s: System, evs: seq<SysEvent>)
    requires SysLegal(cfg, s, evs) && OnlyWindingDown(evs)
    ensures WindsDownTo(cfg, s, SysRun(cfg, s, evs))
  {
  }

  /** After the sender's `Close` has begun, every transport that the refresher does not hold has been
      handed to `Close`. */
  lemma HandedOnceClosing(cfg: BatchConfig, s: System, tid: nat)
    requires Reachable(cfg, s) && s.senderClosed && tid < |s.transports| && !InRefreshersHands(s, tid)
    ensures |s.closes| == |s.transports| && s.closes[tid] == 1
  {
    EveryTransportHasOneOwner(cfg, s, tid);
  }

  lemma ClosingShape(cfg: BatchConfig, s: System)
    requires Reachable(cfg, s)
    ensures Shape(s) && RefreshInRange(s) && !InRefreshersHands(s, s.current) && (s.senderClosed <==> !s.closer.Open?)
  {
    ReachableInv(cfg, s);
  }

  lemma FinishSenderClose(cfg: BatchConfig, s: System) returns (s': System)
    requires Reachable(cfg, s) && s.senderClosed
    ensures WindsDownTo(cfg, s, s') && Reachable(cfg, s') && s'.closer.Done? && s'.senderClosed
  {
    hide Reachable, WindsDownTo, SysLegal, SysRun, Shape, RefreshInRange;
    ClosingShape(cfg, s);
    if s.closer.Done? {
      WindsDownReflexive(cfg, s);
      s' := s;
    } else {
      assert s.current < |s.transports| by { ShapeRange(s); }
      HandedOnceClosing(cfg, s, s.current);
      var s1 := CloseOne(cfg, s, s.current);
      ThenStep(cfg, s, s1, SenderCloseReturn);
      s' := SysApply(cfg, s1, SenderCloseReturn);
    }
  }

  lemma ShapeRange(s: System)
    requires Shape(s)
    ensures s.current < |s.transports| == |s.closes| == |s.addrs|
  {
  }

  function RefreshRank(pc: RefreshPc): nat {
    match pc
    case Idle => 0
    case ClosingRejected(_) => 1
    case Committed(_) => 1
    case Rejected(_) => 2
    case Swapped(_) => 2
    case Created(_) => 3
  }

  lemma {:induction false} FinishRefresh(cfg: BatchConfig, s: System) returns (s': System)
    requires Reachable(cfg, s) && s.closer.Done? && s.senderClosed
    ensures WindsDownTo(cfg, s, s') && Reachable(cfg, s') && s'.closer.Done? && s'.senderClosed && s'.refresh.Idle?
    decreases RefreshRank(s.refresh)
  {
    WindsDownReflexive(cfg, s);
    if s.refresh.Idle? {
      s' := s;
    } else {
      var s1 := RefreshProgress(cfg, s);
      var s2 := FinishRefresh(cfg, s1);
      hide *;
      WindsDownTransitive(cfg, s, s1, s2);
      s' := s2;
    }
  }

  lemma RefreshProgress(cfg: BatchConfig, s: System) returns (s': System)
    requires Reachable(cfg, s) && s.closer.Done? && s.senderClosed && !s.refresh.Idle?
    ensures WindsDownTo(cfg, s, s') && Reachable(cfg, s')
    ensures s'.closer.Done? && s'.senderClosed && RefreshRank(s'.refresh) < RefreshRank(s.refresh)
  {
    hide Reachable, WindsDownTo, SysLegal, SysRun;
    ClosingShape(cfg, s);
    WindsDownReflexive(cfg, s);
    var ev, s1 := RefreshSwap, s;
    match s.refresh {
      case Created(_) => ev := RefreshSwap;
      case Rejected(_) => ev := RefreshCloseRejected;
      case Swapped(_) => ev := RefreshCommit;
      case Committed(_) => ev := RefreshSpawnCloser;
      case ClosingRejected(tid) =>
        HandedOnceClosing(cfg, s, tid);
        s1 := CloseOne(cfg, s, tid);
        ev := RefreshRejectedClosed;
    }
    ThenStep(cfg, s, s1, ev);
    s' := SysApply(cfg, s1, ev);
  }

  ghost predicate ClosedBelow(s: System, n: nat) {
    forall tid: nat :: tid < n && tid < |s.transports| ==> s.transports[tid].close.Closed?
  }

  lemma {:induction false} FinishTransports(cfg: BatchConfig, s: System, n: nat) returns (s': System)
    requires Reachable(cfg, s) && s.closer.Done? && s.senderClosed && s.refresh.Idle?
    requires n <= |s.transports| && ClosedBelow(s, n)
    ensures WindsDownTo(cfg, s, s') && Reachable(cfg, s')
    ensures s'.closer.Done? && s'.senderClosed && s'.refresh.Idle? && ClosedBelow(s', |s'.transports|)
    decreases |s.transports| - n
  {
    WindsDownReflexive(cfg, s);
    if n == |s.transports| {
      s' := s;
    } else {
      hide Reachable, WindsDownTo, SysLegal, SysRun, SysEnabled;
      HandedOnceClosing(cfg, s, n);
      var s1 := CloseOne(cfg, s, n);
      assert ClosedBelow(s1, n + 1);
      var s2 := FinishTransports(cfg, s1, n + 1);
      WindsDownTransitive(cfg, s, s1, s2);
      s' := s2;
    }
  }

  /** Shutdown can always be completed: from every reachable state in which the sender's `Close` has begun
      there is a run, with no step of a `Send` and no new refresh, after which `Close` has returned, the
      refresher is idle, every transport ever created is closed, having been handed to `Close` exactly
      once, and every entry in any of them is settled. */
  lemma ShutdownCanComplete(cfg: BatchConfig, s: System) returns (evs: seq<SysEvent>)
    requires Reachable(cfg, s) && s.senderClosed
    ensures SysLegal(cfg, s, evs) && OnlyWindingDown(evs)
    ensures ShutDown(cfg, SysRun(cfg, s, evs))
  {
    hide Reachable, SysLegal, SysRun, OnlyWindingDown, ShutDown;
    var s1 := FinishSenderClose(cfg, s);
    var s2 := FinishRefresh(cfg, s1);
    var s3 := FinishTransports(cfg, s2, 0);
    WindsDownTransitive(cfg, s, s1, s2);
    WindsDownTransitive(cfg, s, s2, s3);
    IsShutDown(cfg, s3);
    evs :| SysLegal(cfg, s, evs) && s3 == SysRun(cfg, s, evs) && OnlyWindingDown(evs);
  }

  /** And it can always be begun: from every reachable state with the sender open, closing it leads there. */
  lemma {:induction false} OpenSenderCanShutDown(cfg: BatchConfig, s: System) returns (evs: seq<SysEvent>)
    requires Reachable(cfg, s) && !s.senderClosed
    ensures SysLegal(cfg, s, [SenderClose] + evs) && OnlyWindingDown(evs)
    ensures ShutDown(cfg, SysRun(cfg, s, [SenderClose] + evs))
  {
    CurrentIsOpen(cfg, s);
    assert SysLegal(cfg, s, []) && SysRun(cfg, s, []) == s;
    SysThenStep(cfg, s, [], SenderClose);
    assert [] + [SenderClose] == [SenderClose];
    var s1 := SysApply(cfg, s, SenderClose);
    hide SysLegal, SysRun, ShutDown, Reachable, OnlyWindingDown;
    ReachableThen(cfg, s, [SenderClose]);
    evs := ShutdownCanComplete(cfg, s1);
    SysRunConcat(cfg, s, [SenderClose], evs);
  }

  lemma ReachableThen(cfg: BatchConfig, s: System, evs: seq<SysEvent>)
    requires Reachable(cfg, s) && SysLegal(cfg, s, evs)
    ensures Reachable(cfg, SysRun(cfg, s, evs))
  {
    hide SysLegal, SysRun;
    var addr, before :| SysLegal(cfg, Start(addr), before) && s == SysRun(cfg, Start(addr), before);
    SysRunConcat(cfg, Start(addr), before, evs);
  }

  ghost predicate ShutDown(cfg: BatchConfig, s: System) {
    && s.closer.Done? && s.refresh.Idle? && |s.closes| == |s.transports|
    && (forall tid: nat :: tid < |s.transports| ==> s.closes[tid] == 1 && s.transports[tid].close.Closed?)
    && (forall tid: nat, i: nat :: tid < |s.transports| && i < |s.transports[tid].accepted| ==>
          Settled(cfg, s.transports[tid], i))
  }

  lemma IsShutDown(cfg: BatchConfig, s: System)
    requires Reachable(cfg, s) && s.closer.Done? && s.refresh.Idle? && ClosedBelow(s, |s.transports|)
    ensures ShutDown(cfg, s)
  {
    hide Reachable, Settled;
    NothingLeftOpen(cfg, s);
  }

  // ---------- what can always be done ----------

  /** A run is one longer. */
  lemma SysThenStep(cfg: BatchConfig, s: System, evs: seq<SysEvent>, ev: SysEvent)
    requires SysLegal(cfg, s, evs) && SysEnabled(SysRun(cfg, s, evs), ev)
    ensures SysLegal(cfg, s, evs + [ev]) && SysRun(cfg, s, evs + [ev]) == SysApply(cfg, SysRun(cfg, s, evs), ev)
  {
    hide SysApply, SysEnabled;
    var t := SysRun(cfg, s, evs);
    assert [ev][1..] == [] && SysLegal(cfg, SysApply(cfg, t, ev), []);
    assert SysLegal(cfg, t, [ev]) && SysRun(cfg, t, [ev]) == SysApply(cfg, t, ev);
    SysRunConcat(cfg, s, evs, [ev]);
  }

  /** While the sender is open, its current transport accepts. */
  lemma CurrentIsOpen(cfg: BatchConfig, s: System)
    requires Reachable(cfg, s) && !s.senderClosed
    ensures s.closer.Open? && s.current < |s.transports| == |s.origin| == |s.closes| == |s.addrs|
    ensures !s.transports[s.current].core.closed
    ensures |s.transports[s.current].calls| == |s.transports[s.current].accepted|
  {
    ReachableInv(cfg, s);
    assert Inv(cfg, s.transports[s.current]);
  }

  /** A `Send` on an open sender can always be acknowledged by its own steps: its entry is then the newest
      that the current transport accepted, and that transport's counters and wake-up are up to date. */
  lemma {:induction false} SendCanBeAcknowledged(cfg: BatchConfig, s: System, e: Entry) returns (evs: seq<SysEvent>)
    requires Reachable(cfg, s) && !s.senderClosed && e.records != []
    ensures SysLegal(cfg, s, evs) && s.current < |s.transports|
    ensures var s', t := SysRun(cfg, s, evs), s.transports[s.current];
            && s'.sends == s.sends + [SendCall(e, Acked(s.current, |t.accepted|))]
            && |s'.transports| == |s.transports| && s'.current == s.current
            && s'.transports[s.current].accepted == t.accepted + [e]
            && s'.transports[s.current].calls == t.calls + [Returned]
  {
    CurrentIsOpen(cfg, s);
    var k, tid, t := |s.sends|, s.current, s.transports[s.current];
    var i := |t.accepted|;
    AcceptedCall(cfg, t, e);
    var t1 := Apply(cfg, t, Accept(e));
    var t2 := Apply(cfg, t1, CountDrop(i));
    var t3 := Apply(cfg, t2, Signal(i));
    var s1 := DeliverSteps(cfg, s, e, t1);
    InsideStep(cfg, s1, tid, CountDrop(i));
    var s2 := s1.(transports := s1.transports[tid := t2]);
    InsideStep(cfg, s2, tid, Signal(i));
    var s3 := s2.(transports := s2.transports[tid := t3]);
    assert SysEnabled(s3, SendReturn(k));
    assert SysApply(cfg, s3, SendReturn(k)).sends == s.sends + [SendCall(e, Acked(tid, i))];
    assert s1.transports[tid := t2][tid := t3] == s1.transports[tid := t3];
    hide Apply, Enabled, SysEnabled, SysLegal, SysRun;
    evs := [SendBegin(e)] + [SendDeliver(k)];
    SysThenStep(cfg, s, evs, Inside(tid, CountDrop(i)));
    evs := evs + [Inside(tid, CountDrop(i))];
    SysThenStep(cfg, s, evs, Inside(tid, Signal(i)));
    evs := evs + [Inside(tid, Signal(i))];
    SysThenStep(cfg, s, evs, SendReturn(k));
    evs := evs + [SendReturn(k)];
  }

  /** The first two steps of a `Send`: it reads the current transport and its entry is accepted there. */
  lemma DeliverSteps(cfg: BatchConfig, s: System, e: Entry, t1: Transport) returns (s1: System)
    requires Reachable(cfg, s) && !s.senderClosed && e.records != [] && s.current < |s.transports|
    requires Enabled(s.transports[s.current], Accept(e)) && t1 == Apply(cfg, s.transports[s.current], Accept(e))
    ensures SysLegal(cfg, s, [SendBegin(e)] + [SendDeliver(|s.sends|)])
    ensures s1 == SysRun(cfg, s, [SendBegin(e)] + [SendDeliver(|s.sends|)])
    ensures |s1.transports| == |s1.closes| == |s.transports| && s1.transports == s.transports[s.current := t1]
    ensures s1.current == s.current
    ensures s1.sends == s.sends + [SendCall(e, Delivering(s.current, |s.transports[s.current].accepted|))]
  {
    CurrentIsOpen(cfg, s);
    var k := |s.sends|;
    hide Apply, Enabled;
    assert SysLegal(cfg, s, []) && SysRun(cfg, s, []) == s;
    SysThenStep(cfg, s, [], SendBegin(e));
    assert [] + [SendBegin(e)] == [SendBegin(e)];
    var s0 := SysRun(cfg, s, [SendBegin(e)]);
    assert s0 == s.(sends := s.sends + [SendCall(e, Holding(s.current))]);
    SysThenStep(cfg, s, [SendBegin(e)], SendDeliver(k));
    s1 := SysRun(cfg, s, [SendBegin(e)] + [SendDeliver(k)]);
  }

  lemma InsideStep(cfg: BatchConfig, s: System, tid: nat, ev: Event)
    requires tid < |s.transports| == |s.closes| && Enabled(s.transports[tid], ev) && !ev.Accept? && !ev.CloseMark?
    ensures SysEnabled(s, Inside(tid, ev))
    ensures SysApply(cfg, s, Inside(tid, ev))
         == s.(transports := s.transports[tid := Apply(cfg, s.transports[tid], ev)])
  {
    hide Apply, Enabled;
  }

  /** An accepted call, step by step. */
  lemma AcceptedCall(cfg: BatchConfig, t: Transport, e: Entry)
    requires Enabled(t, Accept(e)) && |t.calls| == |t.accepted|
    ensures var i, t2 := |t.accepted|, Apply(cfg, t, Accept(e));
            && Enabled(t2, CountDrop(i)) && t2.accepted == t.accepted + [e]
            && var t3 := Apply(cfg, t2, CountDrop(i));
               && Enabled(t3, Signal(i)) && t3.accepted == t.accepted + [e]
               && var t4 := Apply(cfg, t3, Signal(i));
                  t4.accepted == t.accepted + [e] && t4.calls == t.calls + [Returned]
  {
  }

  /** A refresh that learns a new address while the sender is open can always be carried through: the sender
      then uses a transport for that address, and the old one has been handed to `Close`. */
  lemma {:induction false} RefreshCanComplete(cfg: BatchConfig, s: System, addr: string) returns (evs: seq<SysEvent>)
    requires Reachable(cfg, s) && !s.senderClosed && s.refresh.Idle? && addr != s.currentAddr
    ensures SysLegal(cfg, s, evs)
    ensures var s' := SysRun(cfg, s, evs);
            && s'.refresh.Idle? && s'.currentAddr == addr && s'.current == |s.transports| < |s'.addrs| == |s'.closes|
            && s'.addrs[s'.current] == addr && s'.transports == s.transports + [Fresh()]
            && s.current < |s'.closes| && s'.closes[s.current] == 1 && s'.closes[s'.current] == 0
            && s'.sends == s.sends && !s'.senderClosed
  {
    CurrentIsOpen(cfg, s);
    EveryTransportHasOneOwner(cfg, s, s.current);
    assert s.closes[s.current] == 0;
    evs := [];
    assert SysLegal(cfg, s, []) && SysRun(cfg, s, []) == s;
    SysThenStep(cfg, s, evs, RefreshCreate(addr));
    evs := evs + [RefreshCreate(addr)];
    SysThenStep(cfg, s, evs, RefreshSwap);
    evs := evs + [RefreshSwap];
    SysThenStep(cfg, s, evs, RefreshCommit);
    evs := evs + [RefreshCommit];
    SysThenStep(cfg, s, evs, RefreshSpawnCloser);
    evs := evs + [RefreshSpawnCloser];
  }

  /** A `Send` that begins after the sender was closed fails, and over any run from then on nothing of it is
      in any transport. */
  lemma {:induction false} ClosedSenderRefuses(cfg: BatchConfig, s: System, e: Entry, evs: seq<SysEvent>)
    requires Reachable(cfg, s) && s.senderClosed && SysEnabled(s, SendBegin(e))
    requires SysLegal(cfg, SysApply(cfg, s, SendBegin(e)), evs)
    ensures var s' := SysRun(cfg, SysApply(cfg, s, SendBegin(e)), evs);
            && |s.sends| < |s'.sends| && s'.sends[|s.sends|].pc.Failed?
            && forall tid: nat, i: nat :: !SitsAt(s'.sends[|s.sends|], tid, i)
  {
    FailedStays(cfg, SysApply(cfg, s, SendBegin(e)), evs, |s.sends|);
  }

  lemma {:induction false} FailedStays(cfg: BatchConfig, s: System, evs: seq<SysEvent>, k: nat)
    requires SysLegal(cfg, s, evs) && k < |s.sends| && s.sends[k].pc.Failed?
    ensures k < |SysRun(cfg, s, evs).sends| && SysRun(cfg, s, evs).sends[k].pc.Failed?
    decreases |evs|
  {
    if evs == [] {
    } else {
      FailedStep(cfg, s, evs[0], k);
      hide SysApply, SysEnabled;
      FailedStays(cfg, SysApply(cfg, s, evs[0]), evs[1..], k);
    }
  }

  lemma FailedStep(cfg: BatchConfig, s: System, ev: SysEvent, k: nat)
    requires SysEnabled(s, ev) && k < |s.sends| && s.sends[k].pc.Failed?
    ensures k < |SysApply(cfg, s, ev).sends| && SysApply(cfg, s, ev).sends[k].pc.Failed?
  {
    hide Apply, Enabled;
  }
}
