/** The buffered HTTP transport as a concurrent protocol: any number of `Deliver` calls, one flush
    goroutine woken by a one-slot channel, a timer or the stop channel, and one `Close`.
    A step is one critical section under the transport's mutex, one atomic operation or one channel
    operation, so a run of steps is an interleaving of the goroutines. */
module FlushProtocol {
  import opened Records
  import opened Batching

  // ---------- state ----------

  /** The fields guarded by the mutex, with the two gauges that are stored while it is held. */
  datatype Core = Core(
    buffer: seq<Entry>, bufferCount: int, topic: string, closed: bool, observed: int, highWater: int)

  /** A `Deliver` call whose entry was accepted, from the unlock onwards. */
  datatype CallPc =
    | Unlocked(dropped: nat, flushNeeded: bool)
    | Counted(flushNeeded: bool)
    | Returned

  /** The flush goroutine. `final` marks the flush that the stop channel triggers. */
  datatype LoopPc =
    | Selecting
    | Woken(final: bool)
    | Sending(final: bool, pending: seq<Batch>)
    | Exited

  /** The body of `Close`, which runs once however often `Close` is called. */
  datatype ClosePc = NotClosed | Marked | StopSignalled | Closed

  /** The entries a flush took: those with acceptance index `lo <= i < hi`. */
  datatype Taken = Taken(lo: nat, hi: nat)

  /** `calls[i]` is the call whose entry is `accepted[i]`. The fields from `accepted` on are history:
      no step reads them to decide anything. `lo` is the index of the oldest entry not yet dropped
      or taken, and `counts` lists the record count each accepting call left behind. */
  datatype Transport = Transport(
    core: Core, token: bool, droppedTotal: nat, calls: seq<CallPc>, loop: LoopPc, close: ClosePc,
    accepted: seq<Entry>, lo: nat, flushes: seq<Taken>, handed: seq<Batch>, counts: seq<nat>)

  function Fresh(): Transport {
    Transport(Core([], 0, "", false, 0, 0), false, 0, [], Selecting, NotClosed, [], 0, [], [], [])
  }

  // ---------- the two critical sections ----------

  lemma {:induction false} TrimmedSuffix(cap: int, es: seq<Entry>)
    ensures |Trim(cap, es)| <= |es| && Trim(cap, es) == es[|es| - |Trim(cap, es)|..]
    ensures Total(Trim(cap, es)) <= Total(es)
  {
    if cap > 0 {
      TotalSplit(es, Cut(cap, es));
    }
  }

  function Kept(cfg: BatchConfig, c: Core, e: Entry): seq<Entry> {
    Trim(cfg.maxBufferedRecords, c.buffer + [e])
  }

  function Enqueued(cfg: BatchConfig, c: Core, e: Entry): Core {
    var kept := Kept(cfg, c, e);
    var n := Total(kept);
    Core(kept, n, e.topic, c.closed, n, if n > c.highWater then n else c.highWater)
  }

  /** Records, and entries, that accepting `e` pushes out. */
  function DroppedBy(cfg: BatchConfig, c: Core, e: Entry): nat {
    TrimmedSuffix(cfg.maxBufferedRecords, c.buffer + [e]);
    Total(c.buffer + [e]) - Total(Kept(cfg, c, e))
  }

  function DroppedEntriesBy(cfg: BatchConfig, c: Core, e: Entry): nat {
    TrimmedSuffix(cfg.maxBufferedRecords, c.buffer + [e]);
    |c.buffer| + 1 - |Kept(cfg, c, e)|
  }

  function Emptied(c: Core): Core {
    if c.buffer == [] then c else c.(buffer := [], bufferCount := 0, observed := 0)
  }

  // ---------- steps ----------

  datatype Event =
    | Accept(entry: Entry)
    | CountDrop(i: nat)
    | Signal(i: nat)
    | WakeByStop
    | WakeByTimer
    | WakeByToken
    | Take(order: seq<string>)
    | Hand
    | FlushDone
    | CloseMark
    | CloseStop
    | CloseReturn

  ghost predicate Enabled(t: Transport, ev: Event) {
    match ev
    case Accept(e) => e.records != [] && !t.core.closed
    case CountDrop(i) => i < |t.calls| && t.calls[i].Unlocked?
    case Signal(i) => i < |t.calls| && t.calls[i].Counted?
    case WakeByStop => t.loop.Selecting? && t.close.StopSignalled?
    case WakeByTimer => t.loop.Selecting?
    case WakeByToken => t.loop.Selecting? && t.token
    case Take(order) => t.loop.Woken? && VisitsEachTopicOnce(order, Topics(t.core.buffer))
    case Hand => t.loop.Sending? && t.loop.pending != []
    case FlushDone => t.loop.Sending? && t.loop.pending == []
    case CloseMark => t.close.NotClosed?
    case CloseStop => t.close.Marked?
    case CloseReturn => t.close.StopSignalled? && t.loop.Exited?
  }

  function AfterFlush(final: bool): LoopPc {
    if final then Exited else Selecting
  }

  function Accepted(cfg: BatchConfig, t: Transport, e: Entry): Transport {
    var c := Enqueued(cfg, t.core, e);
    t.(core := c,
       calls := t.calls + [Unlocked(DroppedBy(cfg, t.core, e), c.bufferCount >= cfg.flushMessages)],
       accepted := t.accepted + [e],
       lo := t.lo + DroppedEntriesBy(cfg, t.core, e),
       counts := t.counts + [Total(c.buffer)])
  }

  function TakenOver(cfg: BatchConfig, t: Transport, order: seq<string>): Transport
    requires t.loop.Woken?
  {
    t.(core := Emptied(t.core),
       loop := Sending(t.loop.final, Batches(cfg.maxBatchSize, order, t.core.buffer)),
       lo := |t.accepted|,
       flushes := t.flushes + [Taken(t.lo, |t.accepted|)])
  }

  function Apply(cfg: BatchConfig, t: Transport, ev: Event): Transport
    requires Enabled(t, ev)
  {
    match ev
    case Accept(e) => Accepted(cfg, t, e)
    case CountDrop(i) =>
      t.(droppedTotal := t.droppedTotal + t.calls[i].dropped,
         calls := t.calls[i := Counted(t.calls[i].flushNeeded)])
    case Signal(i) =>
      t.(token := t.token || t.calls[i].flushNeeded, calls := t.calls[i := Returned])
    case WakeByStop => t.(loop := Woken(true))
    case WakeByTimer => t.(loop := Woken(false))
    case WakeByToken => t.(loop := Woken(false), token := false)
    case Take(order) =>
      if t.core.buffer == [] then t.(loop := AfterFlush(t.loop.final)) else TakenOver(cfg, t, order)
    case Hand =>
      t.(handed := t.handed + [t.loop.pending[0]], loop := Sending(t.loop.final, t.loop.pending[1..]))
    case FlushDone => t.(loop := AfterFlush(t.loop.final))
    case CloseMark => t.(core := t.core.(closed := true), close := Marked)
    case CloseStop => t.(close := StopSignalled)
    case CloseReturn => t.(close := Closed)
  }

  /** `evs` is an interleaving that the protocol allows from `t`. */
  ghost predicate Legal(cfg: BatchConfig, t: Transport, evs: seq<Event>)
    decreases |evs|
  {
    evs == [] || (Enabled(t, evs[0]) && Legal(cfg, Apply(cfg, t, evs[0]), evs[1..]))
  }

  function Run(cfg: BatchConfig, t: Transport, evs: seq<Event>): Transport
    requires Legal(cfg, t, evs)
    decreases |evs|
  {
    if evs == [] then t else Run(cfg, Apply(cfg, t, evs[0]), evs[1..])
  }

  // ---------- what became of the accepted entries ----------

  /** Where the last flush ended: everything accepted from here on came after it. */
  function LastFlushEnd(flushes: seq<Taken>): nat {
    if flushes == [] then 0 else flushes[|flushes| - 1].hi
  }

  /** The flushes took disjoint intervals, one after the other, all below `bound`. */
  ghost predicate InOrder(flushes: seq<Taken>, bound: nat) {
    flushes == [] ||
    var last := flushes[|flushes| - 1];
    last.lo <= last.hi <= bound && InOrder(flushes[..|flushes| - 1], last.lo)
  }

  function TakenEntries(accepted: seq<Entry>, flushes: seq<Taken>): seq<Entry>
    requires InOrder(flushes, |accepted|)
  {
    if flushes == [] then []
    else
      var last := flushes[|flushes| - 1];
      InOrderWeaken(flushes[..|flushes| - 1], last.lo, |accepted|);
      TakenEntries(accepted, flushes[..|flushes| - 1]) + accepted[last.lo..last.hi]
  }

  /** The entries below `lo` that no flush took. */
  function DroppedEntries(accepted: seq<Entry>, flushes: seq<Taken>, lo: nat): seq<Entry>
    requires InOrder(flushes, lo) && lo <= |accepted|
    decreases |flushes|
  {
    if flushes == [] then accepted[..lo]
    else
      var last := flushes[|flushes| - 1];
      DroppedEntries(accepted, flushes[..|flushes| - 1], last.lo) + accepted[last.hi..lo]
  }

  lemma InOrderWeaken(flushes: seq<Taken>, bound: nat, larger: nat)
    requires InOrder(flushes, bound) && bound <= larger
    ensures InOrder(flushes, larger)
  {
  }

  /** Dropped plus taken is everything below `lo`. */
  lemma {:induction false} SettledCount(accepted: seq<Entry>, flushes: seq<Taken>, lo: nat)
    requires InOrder(flushes, lo) && lo <= |accepted| && InOrder(flushes, |accepted|)
    ensures Total(accepted[..lo])
         == Total(TakenEntries(accepted, flushes)) + Total(DroppedEntries(accepted, flushes, lo))
    decreases |flushes|
  {
    if flushes == [] {
    } else {
      hide Total;
      var init, last := flushes[..|flushes| - 1], flushes[|flushes| - 1];
      InOrderWeaken(init, last.lo, |accepted|);
      SettledCount(accepted, init, last.lo);
      TotalConcat(TakenEntries(accepted, init), accepted[last.lo..last.hi]);
      TotalConcat(DroppedEntries(accepted, init, last.lo), accepted[last.hi..lo]);
      TotalOfThree(accepted, last.lo, last.hi, lo);
    }
  }

  lemma {:induction false} TotalOfThree(es: seq<Entry>, i: nat, j: nat, k: nat)
    requires i <= j <= k <= |es|
    ensures Total(es[..k]) == Total(es[..i]) + Total(es[i..j]) + Total(es[j..k])
  {
    hide Total;
    assert es[..k] == es[..j] + es[j..k];
    assert es[..j] == es[..i] + es[i..j];
    TotalConcat(es[..j], es[j..k]);
    TotalConcat(es[..i], es[i..j]);
  }

  lemma {:induction false} TakenEntriesFrame(accepted: seq<Entry>, e: Entry, flushes: seq<Taken>)
    requires InOrder(flushes, |accepted|) && InOrder(flushes, |accepted + [e]|)
    ensures TakenEntries(accepted + [e], flushes) == TakenEntries(accepted, flushes)
  {
    if flushes == [] {
    } else {
      var init, last := flushes[..|flushes| - 1], flushes[|flushes| - 1];
      InOrderWeaken(init, last.lo, |accepted|);
      InOrderWeaken(init, last.lo, |accepted + [e]|);
      TakenEntriesFrame(accepted, e, init);
      assert (accepted + [e])[last.lo..last.hi] == accepted[last.lo..last.hi];
    }
  }

  lemma {:induction false} DroppedEntriesFrame(accepted: seq<Entry>, e: Entry, flushes: seq<Taken>, lo: nat)
    requires InOrder(flushes, lo) && lo <= |accepted|
    ensures DroppedEntries(accepted + [e], flushes, lo) == DroppedEntries(accepted, flushes, lo)
    decreases |flushes|
  {
    if flushes == [] {
      assert (accepted + [e])[..lo] == accepted[..lo];
    } else {
      var init, last := flushes[..|flushes| - 1], flushes[|flushes| - 1];
      DroppedEntriesFrame(accepted, e, init, last.lo);
      assert (accepted + [e])[last.hi..lo] == accepted[last.hi..lo];
    }
  }

  lemma DroppedEntriesExtend(accepted: seq<Entry>, flushes: seq<Taken>, lo: nat, lo': nat)
    requires InOrder(flushes, lo) && lo <= lo' <= |accepted| && InOrder(flushes, lo')
    ensures DroppedEntries(accepted, flushes, lo') == DroppedEntries(accepted, flushes, lo) + accepted[lo..lo']
  {
    if flushes == [] {
      assert accepted[..lo'] == accepted[..lo] + accepted[lo..lo'];
    } else {
      var last := flushes[|flushes| - 1];
      assert accepted[last.hi..lo'] == accepted[last.hi..lo] + accepted[lo..lo'];
    }
  }

  /** Records dropped by calls that have released the mutex but not yet added to the counter. */
  function PendingDrops(calls: seq<CallPc>): nat {
    if calls == [] then 0
    else (if calls[0].Unlocked? then calls[0].dropped else 0) + PendingDrops(calls[1..])
  }

  lemma {:induction false} PendingDropsSnoc(calls: seq<CallPc>, c: CallPc)
    ensures PendingDrops(calls + [c]) == PendingDrops(calls) + if c.Unlocked? then c.dropped else 0
  {
    if calls == [] {
    } else {
      assert (calls + [c])[1..] == calls[1..] + [c];
      PendingDropsSnoc(calls[1..], c);
    }
  }

  lemma {:induction false} PendingDropsUpdate(calls: seq<CallPc>, i: nat, c: CallPc)
    requires i < |calls| && !c.Unlocked?
    ensures PendingDrops(calls[i := c]) + (if calls[i].Unlocked? then calls[i].dropped else 0) == PendingDrops(calls)
  {
    if i == 0 {
      assert calls[i := c][1..] == calls[1..];
    } else {
      assert calls[i := c][1..] == calls[1..][i - 1 := c];
      PendingDropsUpdate(calls[1..], i - 1, c);
    }
  }

  function Largest(counts: seq<nat>): nat {
    if counts == [] then 0
    else
      var rest := Largest(counts[..|counts| - 1]);
      if counts[|counts| - 1] > rest then counts[|counts| - 1] else rest
  }

  lemma {:induction false} LargestIsMaximum(counts: seq<nat>)
    ensures forall i :: 0 <= i < |counts| ==> counts[i] <= Largest(counts)
    ensures counts != [] ==> Largest(counts) in counts
  {
    if counts == [] {
    } else {
      var init := counts[..|counts| - 1];
      LargestIsMaximum(init);
      assert forall i :: 0 <= i < |init| ==> counts[i] == init[i];
    }
  }

  // ---------- the invariant ----------

  ghost predicate BufferInv(cfg: BatchConfig, t: Transport) {
    && InOrder(t.flushes, t.lo)
    && LastFlushEnd(t.flushes) <= t.lo <= |t.accepted|
    && |t.calls| == |t.accepted|
    && t.core.buffer == t.accepted[t.lo..]
    && t.core.buffer == Trim(cfg.maxBufferedRecords, t.accepted[LastFlushEnd(t.flushes)..])
    && t.core.bufferCount == t.core.observed == Total(t.core.buffer)
    && (forall e :: e in t.accepted ==> e.records != [])
  }

  ghost predicate CountInv(t: Transport) {
    && InOrder(t.flushes, t.lo) && t.lo <= |t.accepted|
    && t.droppedTotal + PendingDrops(t.calls) == Total(DroppedEntries(t.accepted, t.flushes, t.lo))
    && t.core.highWater == Largest(t.counts)
  }

  ghost predicate PendingSignal(t: Transport) {
    exists i :: 0 <= i < |t.calls| && !t.calls[i].Returned? && t.calls[i].flushNeeded
  }

  /** A full buffer is known to the flush goroutine or about to become known to it. */
  ghost predicate WakeInv(cfg: BatchConfig, t: Transport) {
    t.core.buffer != [] && t.core.bufferCount >= cfg.flushMessages ==>
      t.token || PendingSignal(t) || t.loop.Woken?
  }

  ghost predicate CloseInv(t: Transport) {
    && (t.core.closed <==> !t.close.NotClosed?)
    && (t.loop == Woken(true) || t.loop.Exited? || (t.loop.Sending? && t.loop.final) ==>
          t.close.StopSignalled? || t.close.Closed?)
    && (t.loop.Exited? || (t.loop.Sending? && t.loop.final) ==> t.core.buffer == [])
    && (t.close.Closed? ==> t.loop.Exited?)
  }

  function Unsent(t: Transport): seq<Batch> {
    if t.loop.Sending? then t.loop.pending else []
  }

  ghost predicate OrderInv(cfg: BatchConfig, t: Transport) {
    && InOrder(t.flushes, |t.accepted|)
    && (forall topic :: SentFor(topic, t.handed) + SentFor(topic, Unsent(t))
                     == TopicRecords(topic, TakenEntries(t.accepted, t.flushes)))
    && (forall b :: b in t.handed || b in Unsent(t) ==>
          0 < |b.records| && (cfg.maxBatchSize > 0 ==> |b.records| <= cfg.maxBatchSize))
  }

  /** Which entries a flush takes: those that, with everything accepted after them up to that flush,
      fit under the cap. */
  ghost predicate FateInv(cfg: BatchConfig, accepted: seq<Entry>, flushes: seq<Taken>)
    requires InOrder(flushes, |accepted|)
    decreases |flushes|
  {
    flushes == [] ||
    var init, last := flushes[..|flushes| - 1], flushes[|flushes| - 1];
    InOrder(init, |accepted|) && FateInv(cfg, accepted, init) &&
    forall i :: LastFlushEnd(init) <= i < last.hi ==>
      (last.lo <= i <==> FitsUnderCap(cfg, accepted[i..last.hi]))
  }

  ghost predicate FitsUnderCap(cfg: BatchConfig, es: seq<Entry>) {
    cfg.maxBufferedRecords <= 0 || Total(es) <= cfg.maxBufferedRecords
  }

  ghost predicate Inv(cfg: BatchConfig, t: Transport) {
    && BufferInv(cfg, t)
    && CountInv(t)
    && WakeInv(cfg, t)
    && CloseInv(t)
    && OrderInv(cfg, t)
    && FateInv(cfg, t.accepted, t.flushes)
  }

  // ---------- every step keeps it ----------

  /** Accepting an entry moves `lo` over exactly the entries it pushes out. */
  lemma {:induction false} AcceptFacts(cfg: BatchConfig, t: Transport, e: Entry)
    requires t.lo <= |t.accepted| && t.core.buffer == t.accepted[t.lo..]
    ensures var t' := Accepted(cfg, t, e);
            && t.lo <= t'.lo <= |t'.accepted|
            && t'.core.buffer == t'.accepted[t'.lo..]
            && DroppedBy(cfg, t.core, e) == Total(t'.accepted[t.lo..t'.lo])
  {
    hide Total, Trim;
    var all := t.core.buffer + [e];
    var accepted' := t.accepted + [e];
    assert accepted'[t.lo..] == all;
    TrimmedSuffix(cfg.maxBufferedRecords, all);
    var d := DroppedEntriesBy(cfg, t.core, e);
    assert all[d..] == accepted'[t.lo + d..];
    assert all[..d] == accepted'[t.lo..t.lo + d];
    TotalSplit(all, d);
  }

  lemma {:induction false} AcceptKeepsBufferInv(cfg: BatchConfig, t: Transport, e: Entry)
    requires BufferInv(cfg, t) && e.records != []
    ensures BufferInv(cfg, Accepted(cfg, t, e))
  {
    hide Total, Trim;
    var t' := Accepted(cfg, t, e);
    AcceptFacts(cfg, t, e);
    InOrderWeaken(t.flushes, t.lo, t'.lo);
    var base := LastFlushEnd(t.flushes);
    assert t'.accepted[base..] == t.accepted[base..] + [e];
    TrimIncremental(cfg.maxBufferedRecords, t.accepted[base..], e);
  }

  lemma {:induction false} TakeKeepsBufferInv(cfg: BatchConfig, t: Transport, order: seq<string>)
    requires BufferInv(cfg, t) && t.loop.Woken? && t.core.buffer != []
    ensures BufferInv(cfg, TakenOver(cfg, t, order))
  {
    var t' := TakenOver(cfg, t, order);
    assert t'.flushes[..|t'.flushes| - 1] == t.flushes;
    assert t'.accepted[t'.lo..] == [];
    hide Batches;
  }

  lemma {:induction false} KeepsBufferInv(cfg: BatchConfig, t: Transport, ev: Event)
    requires BufferInv(cfg, t) && Enabled(t, ev)
    ensures BufferInv(cfg, Apply(cfg, t, ev))
  {
    hide Accepted, TakenOver, Total, Trim;
    match ev
    case Accept(e) => AcceptKeepsBufferInv(cfg, t, e);
    case Take(order) =>
      if t.core.buffer != [] {
        TakeKeepsBufferInv(cfg, t, order);
      }
    case _ =>
  }

  lemma {:induction false} AcceptKeepsCountInv(cfg: BatchConfig, t: Transport, e: Entry)
    requires BufferInv(cfg, t) && CountInv(t)
    ensures CountInv(Accepted(cfg, t, e))
  {
    hide Total, Trim, PendingDrops;
    var t' := Accepted(cfg, t, e);
    AcceptFacts(cfg, t, e);
    InOrderWeaken(t.flushes, t.lo, t'.lo);
    DroppedEntriesFrame(t.accepted, e, t.flushes, t.lo);
    DroppedEntriesExtend(t'.accepted, t.flushes, t.lo, t'.lo);
    TotalConcat(DroppedEntries(t'.accepted, t.flushes, t.lo), t'.accepted[t.lo..t'.lo]);
    PendingDropsSnoc(t.calls, t'.calls[|t.calls|]);
    assert t'.counts[..|t'.counts| - 1] == t.counts;
  }

  lemma {:induction false} TakeKeepsCountInv(cfg: BatchConfig, t: Transport, order: seq<string>)
    requires BufferInv(cfg, t) && CountInv(t) && t.loop.Woken?
    ensures CountInv(TakenOver(cfg, t, order))
  {
    hide Total, Trim, Batches, PendingDrops, Largest;
    var t' := TakenOver(cfg, t, order);
    assert t'.flushes[..|t'.flushes| - 1] == t.flushes;
    var dropped := DroppedEntries(t.accepted, t.flushes, t.lo);
    assert t'.accepted[t'.lo..t'.lo] == [];
    assert DroppedEntries(t'.accepted, t'.flushes, t'.lo) == dropped + [] == dropped;
  }

  lemma {:induction false} KeepsCountInv(cfg: BatchConfig, t: Transport, ev: Event)
    requires BufferInv(cfg, t) && CountInv(t) && Enabled(t, ev)
    ensures CountInv(Apply(cfg, t, ev))
  {
    hide Accepted, TakenOver, Total, Trim, PendingDrops, DroppedEntries, Largest;
    match ev
    case Accept(e) => AcceptKeepsCountInv(cfg, t, e);
    case CountDrop(i) => PendingDropsUpdate(t.calls, i, Counted(t.calls[i].flushNeeded));
    case Signal(i) => PendingDropsUpdate(t.calls, i, Returned);
    case Take(order) =>
      if t.core.buffer != [] {
        TakeKeepsCountInv(cfg, t, order);
      }
    case _ =>
  }

  lemma {:induction false} KeepsWakeInv(cfg: BatchConfig, t: Transport, ev: Event)
    requires WakeInv(cfg, t) && CloseInv(t) && Enabled(t, ev)
    ensures WakeInv(cfg, Apply(cfg, t, ev))
  {
    var t' := Apply(cfg, t, ev);
    match ev
    case Accept(e) =>
      if t'.core.bufferCount >= cfg.flushMessages {
        var i := |t.calls|;
        assert !t'.calls[i].Returned? && t'.calls[i].flushNeeded;
      }
    case CountDrop(i) =>
      if PendingSignal(t) {
        var j :| 0 <= j < |t.calls| && !t.calls[j].Returned? && t.calls[j].flushNeeded;
        assert !t'.calls[j].Returned? && t'.calls[j].flushNeeded;
      }
    case Signal(i) =>
      if PendingSignal(t) && !t'.token {
        var j :| 0 <= j < |t.calls| && !t.calls[j].Returned? && t.calls[j].flushNeeded;
        assert !t'.calls[j].Returned? && t'.calls[j].flushNeeded;
      }
    case Take(order) =>
    case _ =>
      assert t'.calls == t.calls;
  }

  lemma {:induction false} KeepsCloseInv(cfg: BatchConfig, t: Transport, ev: Event)
    requires CloseInv(t) && Enabled(t, ev)
    ensures CloseInv(Apply(cfg, t, ev))
  {
  }

  lemma {:induction false} HandKeepsTopicOrder(topic: string, handed: seq<Batch>, pending: seq<Batch>)
    requires pending != []
    ensures SentFor(topic, handed + [pending[0]]) + SentFor(topic, pending[1..])
         == SentFor(topic, handed) + SentFor(topic, pending)
  {
    var b, rest := pending[0], pending[1..];
    assert pending == [b] + rest;
    SentForConcat(topic, handed, [b]);
    SentForConcat(topic, [b], rest);
  }

  lemma {:induction false} HandKeepsOrderInv(cfg: BatchConfig, t: Transport)
    requires OrderInv(cfg, t) && Enabled(t, Hand)
    ensures OrderInv(cfg, Apply(cfg, t, Hand))
  {
    hide SentFor, TopicRecords, TakenEntries, InOrder;
    var t' := Apply(cfg, t, Hand);
    forall topic
      ensures SentFor(topic, t'.handed) + SentFor(topic, Unsent(t'))
           == SentFor(topic, t.handed) + SentFor(topic, Unsent(t))
    {
      HandKeepsTopicOrder(topic, t.handed, t.loop.pending);
    }
  }

  lemma {:induction false} AcceptKeepsOrderInv(cfg: BatchConfig, t: Transport, e: Entry)
    requires OrderInv(cfg, t)
    ensures OrderInv(cfg, Accepted(cfg, t, e))
  {
    var t' := Accepted(cfg, t, e);
    InOrderWeaken(t.flushes, |t.accepted|, |t'.accepted|);
    TakenEntriesFrame(t.accepted, e, t.flushes);
    hide Enqueued, Total, SentFor, TopicRecords, TakenEntries, InOrder;
  }

  lemma {:induction false} KeepsOrderInv(cfg: BatchConfig, t: Transport, ev: Event)
    requires BufferInv(cfg, t) && OrderInv(cfg, t) && Enabled(t, ev)
    ensures OrderInv(cfg, Apply(cfg, t, ev))
  {
    hide BufferInv, Accepted, TakenOver, SentFor, TopicRecords, TakenEntries, InOrder;
    match ev
    case Accept(e) => AcceptKeepsOrderInv(cfg, t, e);
    case Take(order) =>
      if t.core.buffer != [] {
        TakeKeepsOrderInv(cfg, t, order);
      }
    case Hand => HandKeepsOrderInv(cfg, t);
    case _ =>
  }

  lemma {:induction false} BatchSizes(maxSize: int, order: seq<string>, es: seq<Entry>)
    ensures forall b :: b in Batches(maxSize, order, es) ==>
              0 < |b.records| && (maxSize > 0 ==> |b.records| <= maxSize)
  {
    if order == [] {
    } else {
      ChunksPartition(maxSize, TopicRecords(order[0], es));
      BatchSizes(maxSize, order[1..], es);
    }
  }

  lemma {:induction false} TakeExtendsTaken(t: Transport, flushes': seq<Taken>)
    requires InOrder(t.flushes, t.lo) && t.lo <= |t.accepted|
    requires flushes' == t.flushes + [Taken(t.lo, |t.accepted|)]
    ensures InOrder(t.flushes, |t.accepted|) && InOrder(flushes', |t.accepted|)
    ensures TakenEntries(t.accepted, flushes') == TakenEntries(t.accepted, t.flushes) + t.accepted[t.lo..]
  {
    InOrderWeaken(t.flushes, t.lo, |t.accepted|);
    assert flushes'[..|flushes'| - 1] == t.flushes;
    assert t.accepted[t.lo..|t.accepted|] == t.accepted[t.lo..];
  }

  lemma {:induction false} TakeKeepsTopicOrder(
    cfg: BatchConfig, t: Transport, order: seq<string>, flushes': seq<Taken>, topic: string)
    requires flushes' == t.flushes + [Taken(t.lo, |t.accepted|)]
    requires InOrder(t.flushes, t.lo) && t.lo <= |t.accepted| && t.core.buffer == t.accepted[t.lo..]
    requires InOrder(t.flushes, |t.accepted|)
    requires SentFor(topic, t.handed) == TopicRecords(topic, TakenEntries(t.accepted, t.flushes))
    requires VisitsEachTopicOnce(order, Topics(t.core.buffer))
    ensures InOrder(flushes', |t.accepted|)
    ensures SentFor(topic, t.handed) + SentFor(topic, Batches(cfg.maxBatchSize, order, t.core.buffer))
         == TopicRecords(topic, TakenEntries(t.accepted, flushes'))
  {
    TakeExtendsTaken(t, flushes');
    FlushDeliversEveryTopic(topic, cfg.maxBatchSize, order, t.core.buffer);
    TopicRecordsConcat(topic, TakenEntries(t.accepted, t.flushes), t.core.buffer);
  }

  lemma {:induction false} TakeKeepsOrderInv(cfg: BatchConfig, t: Transport, order: seq<string>)
    requires BufferInv(cfg, t) && OrderInv(cfg, t) && Enabled(t, Take(order)) && t.core.buffer != []
    ensures OrderInv(cfg, Apply(cfg, t, Take(order)))
  {
    var t' := Apply(cfg, t, Take(order));
    TakeExtendsTaken(t, t'.flushes);
    BatchSizes(cfg.maxBatchSize, order, t.core.buffer);
    forall topic
      ensures SentFor(topic, t'.handed) + SentFor(topic, Unsent(t'))
           == TopicRecords(topic, TakenEntries(t'.accepted, t'.flushes))
    {
      assert SentFor(topic, t.handed) == SentFor(topic, t.handed) + SentFor(topic, Unsent(t));
      TakeKeepsTopicOrder(cfg, t, order, t'.flushes, topic);
    }
  }

  lemma {:induction false} FateInvFrame(cfg: BatchConfig, accepted: seq<Entry>, e: Entry, flushes: seq<Taken>)
    requires InOrder(flushes, |accepted|) && InOrder(flushes, |accepted + [e]|)
    requires FateInv(cfg, accepted, flushes)
    ensures FateInv(cfg, accepted + [e], flushes)
  {
    if flushes == [] {
    } else {
      var init, last := flushes[..|flushes| - 1], flushes[|flushes| - 1];
      InOrderWeaken(init, |accepted|, |accepted + [e]|);
      FateInvFrame(cfg, accepted, e, init);
      assert forall i :: 0 <= i <= last.hi ==> (accepted + [e])[i..last.hi] == accepted[i..last.hi];
    }
  }

  /** What the buffer holds of the open epoch: an entry is still there exactly when it and everything
      after it fit under the cap. */
  lemma {:induction false} BufferedIffFits(cfg: BatchConfig, t: Transport, i: nat)
    requires BufferInv(cfg, t) && LastFlushEnd(t.flushes) <= i < |t.accepted|
    ensures t.lo <= i <==> FitsUnderCap(cfg, t.accepted[i..])
  {
    var base := LastFlushEnd(t.flushes);
    var epoch := t.accepted[base..];
    SurvivesIffSuffixFits(cfg.maxBufferedRecords, epoch, i - base);
    assert epoch[i - base..] == t.accepted[i..];
    assert |epoch| - |t.core.buffer| == t.lo - base;
  }

  lemma {:induction false} TakeKeepsFateInv(cfg: BatchConfig, t: Transport, flushes': seq<Taken>)
    requires BufferInv(cfg, t) && InOrder(t.flushes, |t.accepted|) && FateInv(cfg, t.accepted, t.flushes)
    requires flushes' == t.flushes + [Taken(t.lo, |t.accepted|)]
    ensures InOrder(flushes', |t.accepted|) && FateInv(cfg, t.accepted, flushes')
  {
    TakeExtendsTaken(t, flushes');
    assert flushes'[..|flushes'| - 1] == t.flushes;
    forall i | LastFlushEnd(t.flushes) <= i < |t.accepted|
      ensures t.lo <= i <==> FitsUnderCap(cfg, t.accepted[i..|t.accepted|])
    {
      BufferedIffFits(cfg, t, i);
      assert t.accepted[i..|t.accepted|] == t.accepted[i..];
    }
  }

  lemma {:induction false} KeepsFateInv(cfg: BatchConfig, t: Transport, ev: Event)
    requires BufferInv(cfg, t) && InOrder(t.flushes, |t.accepted|)
    requires FateInv(cfg, t.accepted, t.flushes) && Enabled(t, ev)
    ensures var t' := Apply(cfg, t, ev);
            InOrder(t'.flushes, |t'.accepted|) && FateInv(cfg, t'.accepted, t'.flushes)
  {
    var t' := Apply(cfg, t, ev);
    match ev
    case Accept(e) =>
      InOrderWeaken(t.flushes, |t.accepted|, |t'.accepted|);
      FateInvFrame(cfg, t.accepted, e, t.flushes);
    case Take(order) =>
      if t.core.buffer != [] {
        TakeKeepsFateInv(cfg, t, t'.flushes);
      }
    case _ =>
  }

  lemma {:induction false} StepKeepsInv(cfg: BatchConfig, t: Transport, ev: Event)
    requires Inv(cfg, t) && Enabled(t, ev)
    ensures Inv(cfg, Apply(cfg, t, ev))
  {
    KeepsBufferInv(cfg, t, ev);
    KeepsCountInv(cfg, t, ev);
    KeepsWakeInv(cfg, t, ev);
    KeepsCloseInv(cfg, t, ev);
    KeepsOrderInv(cfg, t, ev);
    KeepsFateInv(cfg, t, ev);
  }

  lemma {:induction false} RunKeepsInv(cfg: BatchConfig, t: Transport, evs: seq<Event>)
    requires Inv(cfg, t) && Legal(cfg, t, evs)
    ensures Inv(cfg, Run(cfg, t, evs))
    decreases |evs|
  {
    if evs == [] {
    } else {
      StepKeepsInv(cfg, t, evs[0]);
      RunKeepsInv(cfg, Apply(cfg, t, evs[0]), evs[1..]);
    }
  }

  lemma {:induction false} FreshInv(cfg: BatchConfig)
    ensures Inv(cfg, Fresh())
  {
  }

  /** The states some interleaving leads to. */
  ghost predicate Reachable(cfg: BatchConfig, t: Transport) {
    exists evs :: Legal(cfg, Fresh(), evs) && t == Run(cfg, Fresh(), evs)
  }

  lemma {:induction false} ReachableInv(cfg: BatchConfig, t: Transport)
    requires Reachable(cfg, t)
    ensures Inv(cfg, t)
  {
    hide Inv;
    var evs :| Legal(cfg, Fresh(), evs) && t == Run(cfg, Fresh(), evs);
    FreshInv(cfg);
    RunKeepsInv(cfg, Fresh(), evs);
  }

  // ---------- what holds over every interleaving ----------

  /** Records accepted = buffered + taken by flushes + dropped, and `droppedTotal` lags behind the
      drops by exactly the calls that have not reached their counter update. */
  lemma {:induction false} Conservation(cfg: BatchConfig, t: Transport)
    requires Reachable(cfg, t)
    ensures InOrder(t.flushes, |t.accepted|) && InOrder(t.flushes, t.lo) && t.lo <= |t.accepted|
    ensures Total(t.accepted) == Total(t.core.buffer) + Total(TakenEntries(t.accepted, t.flushes))
                               + Total(DroppedEntries(t.accepted, t.flushes, t.lo))
    ensures t.droppedTotal + PendingDrops(t.calls) == Total(DroppedEntries(t.accepted, t.flushes, t.lo))
    ensures t.core.bufferCount == t.core.observed == Total(t.core.buffer)
    ensures cfg.maxBufferedRecords > 0 ==> t.core.bufferCount <= cfg.maxBufferedRecords
    ensures forall i :: 0 <= i < |t.counts| ==> t.counts[i] <= t.core.highWater
    ensures t.counts != [] ==> t.core.highWater in t.counts
  {
    ReachableInv(cfg, t);
    TotalSplit(t.accepted, t.lo);
    SettledCount(t.accepted, t.flushes, t.lo);
    LargestIsMaximum(t.counts);
  }

  /** The buffer is always the longest suffix, of what was accepted since the last flush, that the
      cap admits. */
  lemma {:induction false} BufferRefinesHistory(cfg: BatchConfig, t: Transport)
    requires Reachable(cfg, t) && cfg.maxBufferedRecords > 0
    ensures LastFlushEnd(t.flushes) <= |t.accepted|
    ensures LongestFittingSuffix(cfg.maxBufferedRecords, t.accepted[LastFlushEnd(t.flushes)..], t.core.buffer)
  {
    ReachableInv(cfg, t);
    TrimIsLongestFittingSuffix(cfg.maxBufferedRecords, t.accepted[LastFlushEnd(t.flushes)..]);
  }

  /** For every topic, what has been handed to `sendBatch` and what the flush under way still has to hand
      over is, in acceptance order, what the flushes took; no slice is empty or larger than allowed. */
  lemma {:induction false} TopicOrderKept(cfg: BatchConfig, t: Transport, topic: string)
    requires Reachable(cfg, t)
    ensures InOrder(t.flushes, |t.accepted|)
    ensures SentFor(topic, t.handed) + SentFor(topic, Unsent(t))
         == TopicRecords(topic, TakenEntries(t.accepted, t.flushes))
    ensures forall b :: b in t.handed ==>
              0 < |b.records| && (cfg.maxBatchSize > 0 ==> |b.records| <= cfg.maxBatchSize)
  {
    ReachableInv(cfg, t);
  }

  ghost predicate WakeKnown(cfg: BatchConfig, t: Transport) {
    t.core.bufferCount >= cfg.flushMessages ==> t.token || PendingSignal(t) || t.loop.Woken?
  }

  ghost predicate WakeKnownAfter(cfg: BatchConfig, evs: seq<Event>) {
    Legal(cfg, Fresh(), evs) ==> WakeKnown(cfg, Run(cfg, Fresh(), evs))
  }

  /** No lost wake-up, over every run, exactly for the configurations that ask for at least one
      record: with `FlushMessages <= 0` the empty buffer already counts as full. */
  lemma {:induction false} NoLostWakeUp(cfg: BatchConfig)
    ensures (forall evs :: WakeKnownAfter(cfg, evs)) <==> cfg.flushMessages > 0
  {
    if cfg.flushMessages > 0 {
      forall evs
        ensures WakeKnownAfter(cfg, evs)
      {
        if Legal(cfg, Fresh(), evs) {
          FreshInv(cfg);
          RunKeepsInv(cfg, Fresh(), evs);
        }
      }
    } else {
      assert !WakeKnownAfter(cfg, []);
    }
  }

  /** Whatever the configuration, a buffer with anything in it that is full is known to the flush loop. */
  lemma {:induction false} FullBufferIsKnown(cfg: BatchConfig, t: Transport)
    requires Reachable(cfg, t) && t.core.buffer != []
    ensures WakeKnown(cfg, t)
  {
    ReachableInv(cfg, t);
  }

  ghost predicate TakenBy(flushes: seq<Taken>, f: nat, i: nat) {
    f < |flushes| && flushes[f].lo <= i < flushes[f].hi
  }

  ghost predicate TakenBySome(flushes: seq<Taken>, i: nat) {
    exists f: nat :: TakenBy(flushes, f, i)
  }

  /** The end of the epoch entry `i` was accepted in: the next flush, or now. */
  function EpochEnd(flushes: seq<Taken>, now: nat, i: nat): nat
    decreases |flushes|
  {
    if flushes == [] || i >= flushes[|flushes| - 1].hi then now
    else EpochEnd(flushes[..|flushes| - 1], flushes[|flushes| - 1].hi, i)
  }

  lemma {:induction false} FlushesDisjoint(flushes: seq<Taken>, bound: nat, f: nat, g: nat)
    requires InOrder(flushes, bound) && f < g < |flushes|
    ensures flushes[f].hi <= flushes[g].lo
    decreases |flushes|
  {
    var init := flushes[..|flushes| - 1];
    assert init[f] == flushes[f];
    if g == |flushes| - 1 {
      FlushesBelow(init, flushes[g].lo, f);
    } else {
      assert init[g] == flushes[g];
      FlushesDisjoint(init, flushes[|flushes| - 1].lo, f, g);
    }
  }

  lemma {:induction false} FlushesBelow(flushes: seq<Taken>, bound: nat, f: nat)
    requires InOrder(flushes, bound) && f < |flushes|
    ensures flushes[f].lo <= flushes[f].hi <= bound
    decreases |flushes|
  {
    if f < |flushes| - 1 {
      assert flushes[..|flushes| - 1][f] == flushes[f];
      FlushesBelow(flushes[..|flushes| - 1], flushes[|flushes| - 1].lo, f);
    }
  }

  /** An entry accepted before the last flush ended was taken by some flush exactly when it, with
      everything accepted after it in its epoch, fits under the cap. */
  lemma {:induction false} FateOfFlushedEpochs(
    cfg: BatchConfig, accepted: seq<Entry>, flushes: seq<Taken>, now: nat, i: nat)
    requires InOrder(flushes, |accepted|) && FateInv(cfg, accepted, flushes) && i < LastFlushEnd(flushes)
    ensures i <= EpochEnd(flushes, now, i) <= |accepted|
    ensures TakenBySome(flushes, i) <==> FitsUnderCap(cfg, accepted[i..EpochEnd(flushes, now, i)])
    decreases |flushes|
  {
    var init, last := flushes[..|flushes| - 1], flushes[|flushes| - 1];
    if i < LastFlushEnd(init) {
      FlushesBelow(init, last.lo, |init| - 1);
      FateOfFlushedEpochs(cfg, accepted, init, last.hi, i);
      assert forall f: nat :: TakenBy(flushes, f, i) <==> TakenBy(init, f, i);
    } else {
      forall f: nat | TakenBy(flushes, f, i)
        ensures f == |flushes| - 1
      {
        TakenBelowEnd(init, last.lo, f, i);
      }
      assert last.lo <= i ==> TakenBy(flushes, |flushes| - 1, i);
    }
  }

  /** No flush took an entry at or beyond the end of the last one. */
  lemma {:induction false} TakenBelowEnd(flushes: seq<Taken>, bound: nat, f: nat, i: nat)
    requires InOrder(flushes, bound) && LastFlushEnd(flushes) <= i
    ensures !TakenBy(flushes, f, i)
  {
    if f < |flushes| - 1 {
      FlushesDisjoint(flushes, bound, f, |flushes| - 1);
      FlushesBelow(flushes, bound, |flushes| - 1);
    }
  }

  /** Entry `i` has met exactly one of its two fates: one flush took it and its records were handed to
      `sendBatch`, in acceptance order for every topic; or the cap dropped it, which is decided by what
      was accepted after it in its epoch. Nothing is waiting. */
  ghost predicate Settled(cfg: BatchConfig, t: Transport, i: nat) {
    var end := EpochEnd(t.flushes, |t.accepted|, i);
    && t.core.buffer == [] && Unsent(t) == []
    && InOrder(t.flushes, |t.accepted|)
    && (forall f: nat, g: nat :: TakenBy(t.flushes, f, i) && TakenBy(t.flushes, g, i) ==> f == g)
    && i <= end <= |t.accepted|
    && (TakenBySome(t.flushes, i) <==> FitsUnderCap(cfg, t.accepted[i..end]))
    && (forall topic :: SentFor(topic, t.handed) == TopicRecords(topic, TakenEntries(t.accepted, t.flushes)))
  }

  /** Once `Close` has returned nothing is left behind. */
  lemma {:induction false} SettledAfterClose(cfg: BatchConfig, t: Transport, i: nat)
    requires Inv(cfg, t) && t.close.Closed? && i < |t.accepted|
    ensures Settled(cfg, t, i)
  {
    assert t.lo == |t.accepted|;
    forall f: nat, g: nat | TakenBy(t.flushes, f, i) && TakenBy(t.flushes, g, i)
      ensures f == g
    {
      if f < g {
        FlushesDisjoint(t.flushes, t.lo, f, g);
      } else if g < f {
        FlushesDisjoint(t.flushes, t.lo, g, f);
      }
    }
    if i < LastFlushEnd(t.flushes) {
      FateOfFlushedEpochs(cfg, t.accepted, t.flushes, |t.accepted|, i);
    } else {
      BufferedIffFits(cfg, t, i);
      assert t.accepted[i..|t.accepted|] == t.accepted[i..];
      forall f: nat ensures !TakenBy(t.flushes, f, i) {
        TakenBelowEnd(t.flushes, t.lo, f, i);
      }
    }
    forall topic
      ensures SentFor(topic, t.handed) == TopicRecords(topic, TakenEntries(t.accepted, t.flushes))
    {
      assert SentFor(topic, t.handed) + SentFor(topic, Unsent(t)) == SentFor(topic, t.handed);
    }
  }

  // ---------- Close cannot be blocked ----------

  lemma {:induction false} SomeOrder(topics: set<string>) returns (order: seq<string>)
    ensures VisitsEachTopicOnce(order, topics)
    decreases |topics|
  {
    if topics == {} {
      order := [];
    } else {
      var t :| t in topics;
      var rest := SomeOrder(topics - {t});
      order := [t] + rest;
    }
  }

  function LoopRank(l: LoopPc): nat {
    match l
    case Exited => 0
    case Sending(final, _) => if final then 1 else 4
    case Woken(final) => if final then 2 else 5
    case Selecting => 3
  }

  function CloseRank(c: ClosePc): nat {
    match c
    case NotClosed => 3
    case Marked => 2
    case StopSignalled => 1
    case Closed => 0
  }

  /** From every state in which `Close` has begun, the flush goroutine and `Close` can finish without
      any other goroutine taking a step: closing never deadlocks, whatever is buffered or in flight. */
  lemma {:induction false} CloseCanComplete(cfg: BatchConfig, t: Transport) returns (evs: seq<Event>)
    requires CloseInv(t) && t.core.closed
    ensures Legal(cfg, t, evs) && Run(cfg, t, evs).close.Closed?
    ensures forall ev :: ev in evs ==> !ev.Accept? && !ev.CountDrop? && !ev.Signal? && !ev.WakeByTimer?
    decreases CloseRank(t.close), LoopRank(t.loop), |Unsent(t)|
  {
    if t.close.Closed? {
      evs := [];
    } else {
      var ev: Event;
      match t.loop {
        case Exited => ev := CloseReturn;
        case Selecting => ev := WakeByStop;
        case Woken(_) =>
          var order := SomeOrder(Topics(t.core.buffer));
          ev := Take(order);
        case Sending(_, pending) => ev := if pending == [] then FlushDone else Hand;
      }
      if t.close.Marked? {
        ev := CloseStop;
      }
      KeepsCloseInv(cfg, t, ev);
      var rest := CloseCanComplete(cfg, Apply(cfg, t, ev));
      evs := [ev] + rest;
      assert evs[1..] == rest;
    }
  }

  /** The same from a state in which nobody has called `Close` yet. */
  lemma {:induction false} CanClose(cfg: BatchConfig, t: Transport) returns (evs: seq<Event>)
    requires CloseInv(t)
    ensures Legal(cfg, t, evs) && Run(cfg, t, evs).close.Closed?
    ensures forall ev :: ev in evs ==> !ev.Accept? && !ev.CountDrop? && !ev.Signal? && !ev.WakeByTimer?
  {
    if t.core.closed {
      evs := CloseCanComplete(cfg, t);
    } else {
      KeepsCloseInv(cfg, t, CloseMark);
      var t' := Apply(cfg, t, CloseMark);
      assert t'.core.closed;
      hide CloseInv, Apply;
      var rest := CloseCanComplete(cfg, t');
      evs := [CloseMark] + rest;
      assert evs[0] == CloseMark && evs[1..] == rest;
      assert Enabled(t, evs[0]) && Legal(cfg, Apply(cfg, t, evs[0]), evs[1..]);
    }
  }

  // ---------- a full buffer gets taken ----------

  /** Steps the calls still have to take before they return. */
  function StepsToReturn(calls: seq<CallPc>): nat {
    if calls == [] then 0
    else (if calls[0].Unlocked? then 2 else if calls[0].Counted? then 1 else 0) + StepsToReturn(calls[1..])
  }

  lemma {:induction false} CountingIsAStep(calls: seq<CallPc>, i: nat, c: CallPc)
    requires i < |calls| && calls[i].Unlocked? && c.Counted?
    ensures StepsToReturn(calls[i := c]) < StepsToReturn(calls)
  {
    if i == 0 {
      assert calls[i := c][1..] == calls[1..];
    } else {
      assert calls[i := c][1..] == calls[1..][i - 1 := c];
      CountingIsAStep(calls[1..], i - 1, c);
    }
  }

  function WakeRank(l: LoopPc): nat {
    match l
    case Woken(_) => 0
    case Selecting => 1
    case Sending(_, _) => 2
    case Exited => 3
  }

  /** A step of a call that has its entry accepted already, or of the flush loop other than by timer or
      stop. */
  predicate PromptStep(ev: Event) {
    ev.CountDrop? || ev.Signal? || ev.WakeByToken? || ev.Take? || ev.Hand? || ev.FlushDone?
  }

  /** The step that brings a full buffer closer to being taken. */
  lemma {:induction false} NextPromptStep(cfg: BatchConfig, t: Transport) returns (ev: Event)
    requires WakeInv(cfg, t) && CloseInv(t) && t.core.buffer != [] && t.core.bufferCount >= cfg.flushMessages
    requires !t.loop.Woken?
    ensures PromptStep(ev) && !ev.Take? && Enabled(t, ev)
    ensures var t' := Apply(cfg, t, ev);
            && t'.core == t.core && t'.accepted == t.accepted && t'.lo == t.lo && t'.flushes == t.flushes
            && (WakeRank(t'.loop) < WakeRank(t.loop)
                || (t'.loop == t.loop && t'.token && !t.token)
                || (t'.loop == t.loop && t'.token == t.token && StepsToReturn(t'.calls) < StepsToReturn(t.calls))
                || (t'.calls == t.calls && t'.token == t.token && WakeRank(t'.loop) == WakeRank(t.loop)
                    && |Unsent(t')| < |Unsent(t)|))
  {
    if t.loop.Sending? {
      ev := if t.loop.pending == [] then FlushDone else Hand;
    } else if t.token {
      ev := WakeByToken;
    } else {
      var i :| 0 <= i < |t.calls| && !t.calls[i].Returned? && t.calls[i].flushNeeded;
      if t.calls[i].Unlocked? {
        ev := CountDrop(i);
        CountingIsAStep(t.calls, i, Counted(true));
      } else {
        ev := Signal(i);
      }
    }
  }

  /** From every reachable state with a full buffer the flush loop can take all of it without a timer, a
      stop or a further `Deliver`: it finishes the flush under way, the calls under way signal, and the
      token wakes it. */
  lemma {:induction false} FullBufferCanBeTaken(cfg: BatchConfig, t: Transport) returns (evs: seq<Event>)
    requires Reachable(cfg, t) && t.core.buffer != [] && t.core.bufferCount >= cfg.flushMessages
    ensures Legal(cfg, t, evs) && forall ev :: ev in evs ==> PromptStep(ev)
    ensures var t' := Run(cfg, t, evs);
            t'.core.buffer == [] && t'.accepted == t.accepted && t'.flushes == t.flushes + [Taken(t.lo, |t.accepted|)]
  {
    ReachableInv(cfg, t);
    evs := KnownBufferCanBeTaken(cfg, t);
  }

  lemma {:induction false} KnownBufferCanBeTaken(cfg: BatchConfig, t: Transport) returns (evs: seq<Event>)
    requires WakeInv(cfg, t) && CloseInv(t) && t.core.buffer != [] && t.core.bufferCount >= cfg.flushMessages
    ensures Legal(cfg, t, evs) && forall ev :: ev in evs ==> PromptStep(ev)
    ensures var t' := Run(cfg, t, evs);
            t'.core.buffer == [] && t'.accepted == t.accepted && t'.flushes == t.flushes + [Taken(t.lo, |t.accepted|)]
    decreases WakeRank(t.loop), if t.token then 0 else 1, StepsToReturn(t.calls), |Unsent(t)|
  {
    if t.loop.Woken? {
      var order := SomeOrder(Topics(t.core.buffer));
      evs := [Take(order)];
      assert evs[1..] == [];
      assert Legal(cfg, Apply(cfg, t, evs[0]), []);
    } else {
      var ev := NextPromptStep(cfg, t);
      KeepsWakeInv(cfg, t, ev);
      KeepsCloseInv(cfg, t, ev);
      hide WakeInv, CloseInv, Apply, Enabled, PromptStep;
      var rest := KnownBufferCanBeTaken(cfg, Apply(cfg, t, ev));
      evs := [ev] + rest;
      assert evs[0] == ev && evs[1..] == rest;
    }
  }

  /** A buffer that is not full does not wait for ever either: whenever the flush loop is idle, its timer
      leads to a flush that takes everything buffered. */
  lemma {:induction false} TimerCanFlush(cfg: BatchConfig, t: Transport) returns (evs: seq<Event>)
    requires Reachable(cfg, t) && t.loop.Selecting? && t.core.buffer != []
    ensures Legal(cfg, t, evs) && forall ev :: ev in evs ==> ev.WakeByTimer? || ev.Take?
    ensures var t' := Run(cfg, t, evs);
            t'.core.buffer == [] && t'.accepted == t.accepted && t'.flushes == t.flushes + [Taken(t.lo, |t.accepted|)]
  {
    var order := SomeOrder(Topics(t.core.buffer));
    var t1 := Apply(cfg, t, WakeByTimer);
    evs := [WakeByTimer, Take(order)];
    assert evs[1..] == [Take(order)] && evs[1..][1..] == [];
    assert Legal(cfg, Apply(cfg, t1, Take(order)), []);
    assert Legal(cfg, t1, [Take(order)]) && Run(cfg, t1, [Take(order)]) == Apply(cfg, t1, Take(order));
  }
}
