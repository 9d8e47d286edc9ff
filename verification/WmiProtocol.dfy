/** The disk-drive WMI query: a compare-and-swap guards one worker, which may outlive the caller that
    started it; callers that find a query in flight are served from the cache. Any number of callers,
    each of which may give up at any moment. */
module WmiProtocol {
  import opened Records

  /** What a query returned, error or not. */
  datatype Entry = Entry(disks: seq<string>, failed: bool)

  /** Where a result is carried along, `k` is its position in `finished` (history). */
  datatype WorkerPc = Querying | Queried(entry: Entry) | Stored(entry: Entry, k: nat)
                    | Cleared(entry: Entry, k: nat) | Sent(entry: Entry, k: nat)

  datatype Outcome =
    | FromCache(entry: Entry, k: nat, seen: nat)
    | NoCache(seen: nat)
    | FromQuery(w: nat, entry: Entry, k: nat)
    | TimedOut(w: nat)

  /** `seen` is how many queries had finished when the compare-and-swap failed. */
  datatype CallerPc = Lost(seen: nat) | Won | WaitingFor(w: nat) | Returned(outcome: Outcome)

  datatype Holder = Nobody | Caller(c: nat) | TheWorker(w: nat)

  /** History: `finished` lists the results in the order they were stored, `holder` is who owes the flag
      its clearing, and `starter[w]` is the caller that started worker `w`. */
  datatype Wmi = Wmi(
    inFlight: bool, cache: Option<Entry>, workers: seq<WorkerPc>, callers: seq<CallerPc>,
    finished: seq<Entry>, holder: Holder, starter: seq<nat>)

  function New(): Wmi {
    Wmi(false, None, [], [], [], Nobody, [])
  }

  datatype Event =
    | Call
    | Spawn(c: nat)
    | LoadCache(c: nat)
    | ReceiveResult(c: nat)
    | GiveUp(c: nat)
    | QueryReturns(w: nat, entry: Entry)
    | Store(w: nat)
    | Clear(w: nat)
    | Send(w: nat)

  ghost predicate Enabled(s: Wmi, ev: Event) {
    match ev
    case Call => true
    case Spawn(c) => c < |s.callers| && s.callers[c].Won?
    case LoadCache(c) => c < |s.callers| && s.callers[c].Lost?
    case ReceiveResult(c) =>
      c < |s.callers| && s.callers[c].WaitingFor? && s.callers[c].w < |s.workers| && s.workers[s.callers[c].w].Sent?
    case GiveUp(c) => c < |s.callers| && s.callers[c].WaitingFor?
    case QueryReturns(w, _) => w < |s.workers| && s.workers[w].Querying?
    case Store(w) => w < |s.workers| && s.workers[w].Queried?
    case Clear(w) => w < |s.workers| && s.workers[w].Stored?
    case Send(w) => w < |s.workers| && s.workers[w].Cleared?
  }

  function SetCaller(s: Wmi, c: nat, pc: CallerPc): Wmi
    requires c < |s.callers|
  {
    s.(callers := s.callers[c := pc])
  }

  function SetWorker(s: Wmi, w: nat, pc: WorkerPc): Wmi
    requires w < |s.workers|
  {
    s.(workers := s.workers[w := pc])
  }

  function Latest(s: Wmi): nat {
    if s.finished == [] then 0 else |s.finished| - 1
  }

  function Apply(s: Wmi, ev: Event): Wmi
    requires Enabled(s, ev)
  {
    match ev
    case Call =>
      if s.inFlight then s.(callers := s.callers + [Lost(|s.finished|)])
      else s.(inFlight := true, callers := s.callers + [Won], holder := Caller(|s.callers|))
    case Spawn(c) =>
      SetCaller(s, c, WaitingFor(|s.workers|))
        .(workers := s.workers + [Querying], holder := TheWorker(|s.workers|), starter := s.starter + [c])
    case LoadCache(c) =>
      var seen := s.callers[c].seen;
      SetCaller(s, c, Returned(if s.cache.Some? then FromCache(s.cache.value, Latest(s), seen) else NoCache(seen)))
    case ReceiveResult(c) =>
      var w := s.callers[c].w;
      SetCaller(s, c, Returned(FromQuery(w, s.workers[w].entry, s.workers[w].k)))
    case GiveUp(c) => SetCaller(s, c, Returned(TimedOut(s.callers[c].w)))
    case QueryReturns(w, entry) => SetWorker(s, w, Queried(entry))
    case Store(w) =>
      SetWorker(s, w, Stored(s.workers[w].entry, |s.finished|))
        .(cache := Some(s.workers[w].entry), finished := s.finished + [s.workers[w].entry])
    case Clear(w) => SetWorker(s, w, Cleared(s.workers[w].entry, s.workers[w].k)).(inFlight := false, holder := Nobody)
    case Send(w) => SetWorker(s, w, Sent(s.workers[w].entry, s.workers[w].k))
  }

  ghost predicate Legal(s: Wmi, evs: seq<Event>)
    decreases |evs|
  {
    evs == [] || (Enabled(s, evs[0]) && Legal(Apply(s, evs[0]), evs[1..]))
  }

  function Run(s: Wmi, evs: seq<Event>): Wmi
    requires Legal(s, evs)
    decreases |evs|
  {
    if evs == [] then s else Run(Apply(s, evs[0]), evs[1..])
  }

  ghost predicate Reachable(s: Wmi) {
    exists evs :: Legal(New(), evs) && s == Run(New(), evs)
  }

  // ---------- invariant ----------

  /** Before the worker has cleared the flag. */
  predicate Active(pc: WorkerPc) {
    pc.Querying? || pc.Queried? || pc.Stored?
  }

  ghost predicate FlightInv(s: Wmi) {
    && (s.inFlight <==> !s.holder.Nobody?)
    && (s.holder.Caller? ==> s.holder.c < |s.callers|)
    && (s.holder.TheWorker? ==> s.holder.w < |s.workers|)
    && (forall c: nat :: c < |s.callers| ==> (s.callers[c].Won? <==> s.holder == Caller(c)))
    && (forall w: nat :: w < |s.workers| ==> (Active(s.workers[w]) <==> s.holder == TheWorker(w)))
  }

  ghost predicate CacheInv(s: Wmi) {
    s.cache == if s.finished == [] then None else Some(s.finished[|s.finished| - 1])
  }

  ghost predicate IsFinished(s: Wmi, entry: Entry, k: nat) {
    k < |s.finished| && s.finished[k] == entry
  }

  ghost predicate WorkersInv(s: Wmi) {
    forall w: nat :: w < |s.workers| && (s.workers[w].Stored? || s.workers[w].Cleared? || s.workers[w].Sent?) ==>
      IsFinished(s, s.workers[w].entry, s.workers[w].k)
  }

  ghost predicate CallersInv(s: Wmi) {
    forall c: nat :: c < |s.callers| ==>
      match s.callers[c]
      case Lost(seen) => seen <= |s.finished|
      case Returned(FromCache(entry, k, seen)) => IsFinished(s, entry, k) && seen <= k + 1
      case Returned(NoCache(seen)) => seen == 0
      case Returned(FromQuery(_, entry, k)) => IsFinished(s, entry, k)
      case WaitingFor(w) => w < |s.workers|
      case _ => true
  }

  /** The worker a caller started, whether it waits for it or has stopped waiting. */
  function StartedBy(pc: CallerPc): Option<nat> {
    match pc
    case WaitingFor(w) => Some(w)
    case Returned(FromQuery(w, _, _)) => Some(w)
    case Returned(TimedOut(w)) => Some(w)
    case _ => None
  }

  ghost predicate CallerStarts(s: Wmi, c: nat)
    requires c < |s.callers|
  {
    match StartedBy(s.callers[c])
    case Some(w) => w < |s.starter| && s.starter[w] == c
    case None => true
  }

  ghost predicate StarterOf(s: Wmi, w: nat)
    requires w < |s.starter|
  {
    s.starter[w] < |s.callers| && StartedBy(s.callers[s.starter[w]]) == Some(w)
  }

  /** Workers and the callers that started them correspond one to one. */
  ghost predicate StarterInv(s: Wmi) {
    && |s.starter| == |s.workers|
    && (forall w: nat :: w < |s.starter| ==> StarterOf(s, w))
    && (forall c: nat :: c < |s.callers| ==> CallerStarts(s, c))
  }

  ghost predicate Inv(s: Wmi) {
    FlightInv(s) && CacheInv(s) && WorkersInv(s) && CallersInv(s) && StarterInv(s)
  }

  lemma {:induction false} KeepsFlightInv(s: Wmi, ev: Event)
    requires FlightInv(s) && Enabled(s, ev)
    ensures FlightInv(Apply(s, ev))
  {
  }

  lemma {:induction false} KeepsWorkersInv(s: Wmi, ev: Event)
    requires CacheInv(s) && WorkersInv(s) && Enabled(s, ev)
    ensures CacheInv(Apply(s, ev)) && WorkersInv(Apply(s, ev))
  {
  }

  lemma {:induction false} KeepsCallersInv(s: Wmi, ev: Event)
    requires CacheInv(s) && WorkersInv(s) && CallersInv(s) && Enabled(s, ev)
    ensures CallersInv(Apply(s, ev))
  {
  }

  lemma {:induction false} KeepsStarterInv(s: Wmi, ev: Event)
    requires StarterInv(s) && Enabled(s, ev)
    ensures StarterInv(Apply(s, ev))
  {
    var s' := Apply(s, ev);
    forall w: nat | w < |s'.starter|
      ensures StarterOf(s', w)
    {
      assert w < |s.starter| ==> StarterOf(s, w);
    }
    forall c: nat | c < |s'.callers|
      ensures CallerStarts(s', c)
    {
      assert c < |s.callers| ==> CallerStarts(s, c);
    }
  }

  lemma {:induction false} RunKeepsInv(s: Wmi, evs: seq<Event>)
    requires Inv(s) && Legal(s, evs)
    ensures Inv(Run(s, evs))
    decreases |evs|
  {
    hide FlightInv, CacheInv, WorkersInv, CallersInv, StarterInv, Apply, Enabled;
    if evs == [] {
    } else {
      KeepsFlightInv(s, evs[0]);
      KeepsWorkersInv(s, evs[0]);
      KeepsCallersInv(s, evs[0]);
      KeepsStarterInv(s, evs[0]);
      RunKeepsInv(Apply(s, evs[0]), evs[1..]);
    }
  }

  lemma {:induction false} ReachableInv(s: Wmi)
    requires Reachable(s)
    ensures Inv(s)
  {
    var evs :| Legal(New(), evs) && s == Run(New(), evs);
    RunKeepsInv(New(), evs);
  }

  // ---------- what holds over every run ----------

  /** At most one worker is inside the query, and none is about to be started beside it. */
  lemma {:induction false} SingleFlight(s: Wmi, v: nat, w: nat)
    requires Reachable(s) && v < |s.workers| && w < |s.workers|
    requires s.workers[v].Querying? && s.workers[w].Querying?
    ensures v == w && s.inFlight
    ensures forall c: nat :: c < |s.callers| ==> !s.callers[c].Won?
  {
    ReachableInv(s);
  }

  /** The cache holds the result of the last finished query. What a caller that lost the race returns is
      a finished result no older than the last one finished when it lost, and it finds no cache only if
      none had finished then. What a winner returns is a finished result too. */
  lemma {:induction false} CacheIsFresh(s: Wmi, c: nat)
    requires Reachable(s)
    ensures s.cache == if s.finished == [] then None else Some(s.finished[|s.finished| - 1])
    ensures c < |s.callers| && s.callers[c].Returned? ==>
              match s.callers[c].outcome
              case FromCache(entry, k, seen) => IsFinished(s, entry, k) && seen <= k + 1
              case NoCache(seen) => seen == 0
              case FromQuery(_, entry, k) => IsFinished(s, entry, k)
              case TimedOut(_) => true
  {
    ReachableInv(s);
  }

  /** Each worker was started by exactly one caller, one that had won the race, and each caller that won
      and went on started exactly one. */
  lemma {:induction false} EveryWorkerHasOneStarter(s: Wmi, w: nat)
    requires Reachable(s) && w < |s.workers|
    ensures exists c: nat :: c < |s.callers| && StartedBy(s.callers[c]) == Some(w)
              && (forall d: nat :: d < |s.callers| && StartedBy(s.callers[d]) == Some(w) ==> d == c)
  {
    ReachableInv(s);
    var c := s.starter[w];
    assert StarterOf(s, w);
    forall d: nat | d < |s.callers| && StartedBy(s.callers[d]) == Some(w)
      ensures d == c
    {
      assert CallerStarts(s, d);
    }
  }

  ghost predicate LostOrCached(pc: CallerPc, seen: nat) {
    match pc
    case Lost(n) => n == seen
    case Returned(FromCache(_, _, n)) => n == seen
    case Returned(NoCache(n)) => n == seen
    case _ => false
  }

  /** A caller that lost the race never starts a worker, over any run from then on: it stays where it is
      or returns from the cache, or without result, by what it saw. */
  lemma {:induction false} LosersNeverSpawn(s: Wmi, evs: seq<Event>, c: nat, seen: nat)
    requires Legal(s, evs) && c < |s.callers| && LostOrCached(s.callers[c], seen)
    ensures var s' := Run(s, evs);
            c < |s'.callers| && LostOrCached(s'.callers[c], seen) && StartedBy(s'.callers[c]).None?
    decreases |evs|
  {
    if evs == [] {
    } else {
      LoserSteps(s, evs[0], c, seen);
      hide Apply, Enabled, LostOrCached;
      LosersNeverSpawn(Apply(s, evs[0]), evs[1..], c, seen);
    }
  }

  lemma LoserSteps(s: Wmi, ev: Event, c: nat, seen: nat)
    requires Enabled(s, ev) && c < |s.callers| && LostOrCached(s.callers[c], seen)
    ensures c < |Apply(s, ev).callers| && LostOrCached(Apply(s, ev).callers[c], seen)
  {
  }

  /** A stuck worker blocks nothing but new queries: once its query returns it clears the flag by its own
      two steps, and the next caller wins. */
  lemma {:induction false} Recovers(s: Wmi, w: nat, entry: Entry)
    requires Reachable(s) && w < |s.workers| && s.workers[w].Querying?
    ensures Legal(s, [QueryReturns(w, entry), Store(w), Clear(w), Call])
    ensures var s' := Run(s, [QueryReturns(w, entry), Store(w), Clear(w), Call]);
            s'.cache == Some(entry) && |s'.callers| == |s.callers| + 1 && s'.callers[|s.callers|].Won?
  {
    var s1 := Apply(s, QueryReturns(w, entry));
    var s2 := Apply(s1, Store(w));
    var s3 := Apply(s2, Clear(w));
    var evs := [QueryReturns(w, entry), Store(w), Clear(w), Call];
    assert evs[1..] == [Store(w), Clear(w), Call];
    assert evs[1..][1..] == [Clear(w), Call];
    assert evs[1..][1..][1..] == [Call];
    assert evs[1..][1..][1..][1..] == [];
    assert Legal(Apply(s3, Call), []);
    assert Legal(s3, [Call]) && Run(s3, [Call]) == Apply(s3, Call);
    assert Legal(s2, [Clear(w), Call]) && Run(s2, [Clear(w), Call]) == Apply(s3, Call);
    assert Legal(s1, [Store(w), Clear(w), Call]);
  }

  lemma {:induction false} RunConcat(s: Wmi, a: seq<Event>, b: seq<Event>)
    requires Legal(s, a) && Legal(Run(s, a), b)
    ensures Legal(s, a + b) && Run(s, a + b) == Run(Run(s, a), b)
    decreases |a|
  {
    hide Apply, Enabled;
    if a == [] {
      assert a + b == b;
    } else {
      assert (a + b)[0] == a[0] && (a + b)[1..] == a[1..] + b;
      RunConcat(Apply(s, a[0]), a[1..], b);
    }
  }

  /** A run is one longer. */
  lemma ThenStep(s: Wmi, evs: seq<Event>, ev: Event)
    requires Legal(s, evs) && Enabled(Run(s, evs), ev)
    ensures Legal(s, evs + [ev]) && Run(s, evs + [ev]) == Apply(Run(s, evs), ev)
  {
    hide Apply, Enabled;
    var t := Run(s, evs);
    assert [ev][1..] == [] && Legal(Apply(t, ev), []);
    assert Legal(t, [ev]) && Run(t, [ev]) == Apply(t, ev);
    RunConcat(s, evs, [ev]);
  }

  /** With no query in flight a new caller can always get the result of a query of its own, which is then in
      the cache too, with the flag clear again. */
  lemma {:induction false} CallerCanBeAnswered(s: Wmi, entry: Entry) returns (evs: seq<Event>)
    requires Reachable(s) && !s.inFlight
    ensures Legal(s, evs)
    ensures var s' := Run(s, evs);
            && s'.callers == s.callers + [Returned(FromQuery(|s.workers|, entry, |s.finished|))]
            && s'.cache == Some(entry) && s'.finished == s.finished + [entry] && !s'.inFlight
  {
    var c, w := |s.callers|, |s.workers|;
    assert Legal(s, []) && Run(s, []) == s;
    evs := [];
    ThenStep(s, evs, Call);
    evs := evs + [Call];
    ThenStep(s, evs, Spawn(c));
    evs := evs + [Spawn(c)];
    ThenStep(s, evs, QueryReturns(w, entry));
    evs := evs + [QueryReturns(w, entry)];
    ThenStep(s, evs, Store(w));
    evs := evs + [Store(w)];
    ThenStep(s, evs, Clear(w));
    evs := evs + [Clear(w)];
    ThenStep(s, evs, Send(w));
    evs := evs + [Send(w)];
    ThenStep(s, evs, ReceiveResult(c));
    evs := evs + [ReceiveResult(c)];
  }

  /** A caller that lost the race returns what the cache holds when it looks, and nothing only if it holds
      nothing. */
  lemma LoserIsServed(s: Wmi, c: nat)
    requires Reachable(s) && Enabled(s, LoadCache(c))
    ensures var pc := Apply(s, LoadCache(c)).callers[c];
            pc.Returned?
            && (if s.finished == [] then pc.outcome == NoCache(0)
                else pc.outcome == FromCache(s.finished[|s.finished| - 1], |s.finished| - 1, s.callers[c].seen))
  {
    ReachableInv(s);
  }

  // ---------- the code's own state ----------

  /** What a call returns: an entry, which may itself carry an error, or one of two errors of its own. */
  datatype Answer = Served(entry: Entry) | InFlightWithoutCache | QueryTimedOut

  /** The package-level query state. */
  class WmiQueryState {
    var inFlight: bool
    var cache: Option<Entry>

    constructor ()
      ensures !inFlight && cache == None
    {
      inFlight, cache := false, None;
    }

    /** The worker's last words: the cache first, then the flag, so that a new caller that finds the flag
        clear also finds the result. */
    method FinishWorker(entry: Entry)
      requires inFlight
      modifies this
      ensures cache == Some(entry) && !inFlight
    {
      cache := Some(entry);
      inFlight := false;
    }

    /** One call of the query. `answer` is what its worker's query returns, if it does so before the
        caller's context expires. */
    method QueryWMIDiskDrive(answer: Option<Entry>) returns (result: Answer)
      modifies this
      ensures old(inFlight) ==> inFlight && cache == old(cache)
      ensures old(inFlight) ==> result == if cache.Some? then Served(cache.value) else InFlightWithoutCache
      ensures !old(inFlight) && answer.Some? ==> !inFlight && cache == answer && result == Served(answer.value)
      ensures !old(inFlight) && answer.None? ==> inFlight && cache == old(cache) && result == QueryTimedOut
    {
      if inFlight {
        if cache.Some? {
          return Served(cache.value);
        }
        return InFlightWithoutCache;
      }
      inFlight := true;
      if answer.Some? {
        FinishWorker(answer.value);
        return Served(answer.value);
      }
      result := QueryTimedOut;
    }
  }
}
