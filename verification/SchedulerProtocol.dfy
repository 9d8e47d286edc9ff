/** The scheduler's lifecycle: `Start`, any number of overlapping `Reconfigure` and `Stop` calls, and the
    collector goroutines they start and cancel. A `Start` is assumed not to overlap the other calls, as
    the program arranges. Collector names are distinct within one list of enabled collectors, because the
    registry is keyed by name. */
module SchedulerProtocol {

  // ---------- state ----------

  /** A collector goroutine; `gen` is the context it was given, an index into the generations. */
  datatype Worker = Worker(name: string, gen: nat, alive: bool)

  datatype StartPc = NotStarting | StartSpawning(todo: seq<string>)

  /** The `Reconfigure` call that holds the reconfigure mutex. */
  datatype ReconfigurePc =
    | NotReconfiguring
    | Waiting                        // cancelled the generation, released the mutex, in wg.Wait
    | Waited                         // wg.Wait returned, mutex not yet taken again
    | Respawning(todo: seq<string>)  // holding the mutex, starting goroutines

  /** `cancelled[g]` says context g is done; `current` is the generation the stored `cancel` cancels;
      `stopping` counts the `Stop` calls that flipped `running` and wait for the goroutines. The wait
      group's counter is the number of goroutines alive. Generation 0 stands for "no context yet". */
  datatype Scheduler = Scheduler(
    running: bool, cancelled: seq<bool>, current: nat, parentDone: bool, workers: seq<Worker>,
    start: StartPc, reconfigure: ReconfigurePc, stopping: nat)

  function New(): Scheduler {
    Scheduler(false, [true], 0, false, [], NotStarting, NotReconfiguring, 0)
  }

  ghost predicate Distinct(names: seq<string>) {
    forall i, j :: 0 <= i < j < |names| ==> names[i] != names[j]
  }

  ghost predicate NoneAlive(s: Scheduler) {
    forall i :: 0 <= i < |s.workers| ==> !s.workers[i].alive
  }

  // ---------- steps ----------

  datatype Event =
    | StartCall(parentDone: bool, names: seq<string>)
    | StartSpawn
    | StartReturn
    | ReconfigureCancel
    | ReconfigureWaited
    | ReconfigureRelock(names: seq<string>)
    | ReconfigureSpawn
    | ReconfigureReturn
    | StopFlip
    | StopReturn
    | WorkerExit(i: nat)
    | ParentCancel

  predicate MutexFree(s: Scheduler) {
    !s.reconfigure.Respawning?
  }

  ghost predicate Enabled(s: Scheduler, ev: Event) {
    match ev
    case StartCall(_, names) =>
      s.start.NotStarting? && s.reconfigure.NotReconfiguring? && s.stopping == 0 && Distinct(names)
    case StartSpawn => s.start.StartSpawning? && s.start.todo != []
    case StartReturn => s.start.StartSpawning? && s.start.todo == []
    case ReconfigureCancel => s.reconfigure.NotReconfiguring? && s.start.NotStarting? && s.current < |s.cancelled|
    case ReconfigureWaited => s.reconfigure.Waiting? && NoneAlive(s)
    case ReconfigureRelock(names) => s.reconfigure.Waited? && Distinct(names)
    case ReconfigureSpawn => s.reconfigure.Respawning? && s.reconfigure.todo != []
    case ReconfigureReturn => s.reconfigure.Respawning? && s.reconfigure.todo == []
    case StopFlip => MutexFree(s) && s.start.NotStarting? && s.current < |s.cancelled|
    case StopReturn => s.stopping > 0 && NoneAlive(s)
    case WorkerExit(i) =>
      i < |s.workers| && s.workers[i].alive && s.workers[i].gen < |s.cancelled| && s.cancelled[s.workers[i].gen]
    case ParentCancel => true
  }

  /** A new context under the parent becomes the one the stored `cancel` cancels. */
  function NewGeneration(s: Scheduler): Scheduler {
    s.(cancelled := s.cancelled + [s.parentDone], current := |s.cancelled|)
  }

  function Spawn(s: Scheduler, name: string): Scheduler {
    s.(workers := s.workers + [Worker(name, s.current, true)])
  }

  function Apply(s: Scheduler, ev: Event): Scheduler
    requires Enabled(s, ev)
  {
    match ev
    case StartCall(parentDone, names) =>
      if s.running then s
      else NewGeneration(s.(running := true, parentDone := parentDone)).(start := StartSpawning(names))
    case StartSpawn => Spawn(s, s.start.todo[0]).(start := StartSpawning(s.start.todo[1..]))
    case StartReturn => s.(start := NotStarting)
    case ReconfigureCancel =>
      if !s.running then s
      else s.(cancelled := s.cancelled[s.current := true], reconfigure := Waiting)
    case ReconfigureWaited => s.(reconfigure := Waited)
    case ReconfigureRelock(names) =>
      if !s.running then s.(reconfigure := NotReconfiguring)
      else NewGeneration(s).(reconfigure := Respawning(names))
    case ReconfigureSpawn => Spawn(s, s.reconfigure.todo[0]).(reconfigure := Respawning(s.reconfigure.todo[1..]))
    case ReconfigureReturn => s.(reconfigure := NotReconfiguring)
    case StopFlip =>
      if !s.running then s
      else s.(running := false, cancelled := s.cancelled[s.current := true], stopping := s.stopping + 1)
    case StopReturn => s.(stopping := s.stopping - 1)
    case WorkerExit(i) => s.(workers := s.workers[i := s.workers[i].(alive := false)])
    case ParentCancel => s.(parentDone := true, cancelled := seq(|s.cancelled|, _ => true))
  }

  ghost predicate Legal(s: Scheduler, evs: seq<Event>)
    decreases |evs|
  {
    evs == [] || (Enabled(s, evs[0]) && Legal(Apply(s, evs[0]), evs[1..]))
  }

  function Run(s: Scheduler, evs: seq<Event>): Scheduler
    requires Legal(s, evs)
    decreases |evs|
  {
    if evs == [] then s else Run(Apply(s, evs[0]), evs[1..])
  }

  ghost predicate Reachable(s: Scheduler) {
    exists evs :: Legal(New(), evs) && s == Run(New(), evs)
  }

  // ---------- invariant ----------

  /** Every live goroutine's context is done or is the one the stored `cancel` cancels. */
  ghost predicate ContextInv(s: Scheduler) {
    && s.current < |s.cancelled|
    && (forall i :: 0 <= i < |s.workers| ==> s.workers[i].gen < |s.cancelled|)
    && (forall i :: 0 <= i < |s.workers| && s.workers[i].alive ==>
          s.cancelled[s.workers[i].gen] || s.workers[i].gen == s.current)
    && (!s.running || s.reconfigure.Waiting? || s.reconfigure.Waited? ==> s.cancelled[s.current])
  }

  /** The names still to be started. */
  function Todo(s: Scheduler): seq<string> {
    if s.start.StartSpawning? then s.start.todo
    else if s.reconfigure.Respawning? then s.reconfigure.todo
    else []
  }

  ghost predicate UniqueInv(s: Scheduler) {
    && (forall i, j :: 0 <= i < j < |s.workers| && s.workers[i].alive && s.workers[j].alive ==>
          s.workers[i].name != s.workers[j].name)
    && Distinct(Todo(s))
    && (forall i, k :: 0 <= i < |s.workers| && s.workers[i].alive && 0 <= k < |Todo(s)| ==>
          s.workers[i].name != Todo(s)[k])
  }

  ghost predicate PhaseInv(s: Scheduler) {
    && (s.start.StartSpawning? ==> s.running && s.reconfigure.NotReconfiguring? && s.stopping == 0)
    && (s.reconfigure.Respawning? ==> s.running)
    && (s.reconfigure.Waited? ==> NoneAlive(s))
    && (s.running ==> s.stopping == 0)
    && (!s.running && s.stopping == 0 ==> NoneAlive(s))
  }

  ghost predicate Inv(s: Scheduler) {
    ContextInv(s) && UniqueInv(s) && PhaseInv(s)
  }

  // ---------- every step keeps it ----------

  lemma {:induction false} KeepsContextInv(s: Scheduler, ev: Event)
    requires ContextInv(s) && PhaseInv(s) && Enabled(s, ev)
    ensures ContextInv(Apply(s, ev))
  {
  }

  lemma {:induction false} KeepsUniqueInv(s: Scheduler, ev: Event)
    requires UniqueInv(s) && PhaseInv(s) && Enabled(s, ev)
    ensures UniqueInv(Apply(s, ev))
  {
  }

  lemma {:induction false} KeepsPhaseInv(s: Scheduler, ev: Event)
    requires PhaseInv(s) && Enabled(s, ev)
    ensures PhaseInv(Apply(s, ev))
  {
  }

  lemma {:induction false} RunKeepsInv(s: Scheduler, evs: seq<Event>)
    requires Inv(s) && Legal(s, evs)
    ensures Inv(Run(s, evs))
    decreases |evs|
  {
    hide ContextInv, UniqueInv, PhaseInv, Apply, Enabled;
    if evs == [] {
    } else {
      KeepsContextInv(s, evs[0]);
      KeepsUniqueInv(s, evs[0]);
      KeepsPhaseInv(s, evs[0]);
      RunKeepsInv(Apply(s, evs[0]), evs[1..]);
    }
  }

  lemma {:induction false} ReachableInv(s: Scheduler)
    requires Reachable(s)
    ensures Inv(s)
  {
    var evs :| Legal(New(), evs) && s == Run(New(), evs);
    RunKeepsInv(New(), evs);
  }

  // ---------- what holds over every run ----------

  /** At no time are two goroutines alive for the same collector. */
  lemma {:induction false} NeverTwoForOneCollector(s: Scheduler, i: nat, j: nat)
    requires Reachable(s) && i < |s.workers| && j < |s.workers|
    requires s.workers[i].alive && s.workers[j].alive && s.workers[i].name == s.workers[j].name
    ensures i == j
  {
    ReachableInv(s);
  }

  /** Every live goroutine can be reached by a cancellation: its context is already done, or the stored
      `cancel` cancels it. Hence once `running` is false every live goroutine has been told to stop. */
  lemma {:induction false} EveryWorkerCancellable(s: Scheduler, i: nat)
    requires Reachable(s) && i < |s.workers| && s.workers[i].alive
    ensures s.workers[i].gen < |s.cancelled| && (s.cancelled[s.workers[i].gen] || s.workers[i].gen == s.current)
    ensures !s.running ==> s.cancelled[s.workers[i].gen]
  {
    ReachableInv(s);
  }

  /** After `running` was flipped nothing is spawned until the next `Start`, whatever `Reconfigure`
      calls are under way. */
  lemma {:induction false} StoppedStaysStopped(s: Scheduler, evs: seq<Event>)
    requires Inv(s) && !s.running && Legal(s, evs)
    requires forall ev :: ev in evs ==> !ev.StartCall?
    ensures var s' := Run(s, evs);
            !s'.running && |s'.workers| == |s.workers|
            && forall i :: 0 <= i < |s.workers| && !s.workers[i].alive ==> !s'.workers[i].alive
    decreases |evs|
  {
    if evs == [] {
    } else {
      KeepsContextInv(s, evs[0]);
      KeepsUniqueInv(s, evs[0]);
      KeepsPhaseInv(s, evs[0]);
      assert evs[0] in evs;
      StepAfterStop(s, evs[0]);
      hide Apply, Enabled, Inv;
      forall ev | ev in evs[1..] ensures !ev.StartCall? {}
      StoppedStaysStopped(Apply(s, evs[0]), evs[1..]);
    }
  }

  lemma {:induction false} StepAfterStop(s: Scheduler, ev: Event)
    requires PhaseInv(s) && !s.running && Enabled(s, ev) && !ev.StartCall?
    ensures var s' := Apply(s, ev);
            !s'.running && |s'.workers| == |s.workers|
            && forall i :: 0 <= i < |s.workers| && !s.workers[i].alive ==> !s'.workers[i].alive
  {
  }

  /** When the `Stop` that flipped `running` returns no goroutine is alive, and none will be until the
      next `Start`. */
  lemma {:induction false} StopIsFinal(s: Scheduler, evs: seq<Event>)
    requires Reachable(s) && Enabled(s, StopReturn) && Legal(Apply(s, StopReturn), evs)
    requires forall ev :: ev in evs ==> !ev.StartCall?
    ensures NoneAlive(s) && NoneAlive(Run(Apply(s, StopReturn), evs))
  {
    ReachableInv(s);
    KeepsContextInv(s, StopReturn);
    KeepsUniqueInv(s, StopReturn);
    KeepsPhaseInv(s, StopReturn);
    StoppedStaysStopped(Apply(s, StopReturn), evs);
  }

  /** The wait group is never added to while a call waits on it. */
  lemma {:induction false} NoSpawnDuringWait(s: Scheduler)
    requires Reachable(s) && (Enabled(s, StartSpawn) || Enabled(s, ReconfigureSpawn))
    ensures s.stopping == 0 && !s.reconfigure.Waiting?
  {
    ReachableInv(s);
  }

  // ---------- waiting ends ----------

  function AliveCount(workers: seq<Worker>): nat {
    if workers == [] then 0 else (if workers[0].alive then 1 else 0) + AliveCount(workers[1..])
  }

  lemma {:induction false} OneFewerAlive(workers: seq<Worker>, i: nat)
    requires i < |workers| && workers[i].alive
    ensures AliveCount(workers[i := workers[i].(alive := false)]) + 1 == AliveCount(workers)
  {
    if i == 0 {
      assert workers[0 := workers[0].(alive := false)][1..] == workers[1..];
    } else {
      assert workers[i := workers[i].(alive := false)][1..] == workers[1..][i - 1 := workers[i].(alive := false)];
      OneFewerAlive(workers[1..], i - 1);
    }
  }

  /** Every live goroutine has been told to stop. */
  ghost predicate AllCancelled(s: Scheduler) {
    forall i :: 0 <= i < |s.workers| && s.workers[i].alive ==>
      s.workers[i].gen < |s.cancelled| && s.cancelled[s.workers[i].gen]
  }

  ghost predicate OnlyExits(evs: seq<Event>) {
    forall ev :: ev in evs ==> ev.WorkerExit?
  }

  lemma {:induction false} WorkersCanExit(s: Scheduler) returns (evs: seq<Event>)
    requires AllCancelled(s)
    ensures Legal(s, evs) && OnlyExits(evs)
    ensures NoneAlive(Run(s, evs)) && Run(s, evs) == s.(workers := Run(s, evs).workers)
    decreases AliveCount(s.workers)
  {
    if NoneAlive(s) {
      evs := [];
    } else {
      var i :| 0 <= i < |s.workers| && s.workers[i].alive;
      OneFewerAlive(s.workers, i);
      var rest := WorkersCanExit(Apply(s, WorkerExit(i)));
      evs := [WorkerExit(i)] + rest;
      assert evs[1..] == rest;
    }
  }

  /** Nobody waits for ever: whenever a `Stop` or a `Reconfigure` is waiting, every live goroutine has been
      told to stop, and once they have gone, by steps of their own only, the call goes on. */
  lemma {:induction false} WaitsCanEnd(s: Scheduler) returns (evs: seq<Event>)
    requires Reachable(s) && (s.stopping > 0 || s.reconfigure.Waiting?)
    ensures Legal(s, evs) && OnlyExits(evs)
    ensures s.stopping > 0 ==> Enabled(Run(s, evs), StopReturn)
    ensures s.reconfigure.Waiting? ==> Enabled(Run(s, evs), ReconfigureWaited)
  {
    ReachableInv(s);
    assert AllCancelled(s);
    evs := WorkersCanExit(s);
  }

  // ---------- starting completes ----------

  /** A goroutine has been started for `n` under generation `g`; it is alive unless its context is done. */
  ghost predicate Spawned(s: Scheduler, n: string, g: nat) {
    exists i :: 0 <= i < |s.workers| && SpawnedAt(s, i, n, g)
  }

  ghost predicate SpawnedAt(s: Scheduler, i: nat, n: string, g: nat)
    requires i < |s.workers|
  {
    s.workers[i].name == n && s.workers[i].gen == g < |s.cancelled| && (s.workers[i].alive || s.cancelled[g])
  }

  predicate Starting(s: Scheduler) {
    s.start.StartSpawning? || s.reconfigure.Respawning?
  }

  /** A `Start` or `Reconfigure` is starting the collectors `names` under generation `g`: each is started
      already or still to be, and nothing else is started under it. */
  ghost predicate UnderWay(s: Scheduler, names: seq<string>, g: nat) {
    && Starting(s) && s.running && s.current == g
    && (forall n :: n in names ==> n in Todo(s) || Spawned(s, n, g))
    && (forall n :: n in Todo(s) ==> n in names)
    && (forall i :: 0 <= i < |s.workers| && s.workers[i].gen == g ==> s.workers[i].name in names)
  }

  predicate Returns(ev: Event) {
    ev.StartReturn? || ev.ReconfigureReturn?
  }

  lemma {:induction false} StepKeepsUnderWay(s: Scheduler, ev: Event, names: seq<string>, g: nat)
    requires Inv(s) && UnderWay(s, names, g) && Enabled(s, ev) && !Returns(ev)
    ensures UnderWay(Apply(s, ev), names, g)
  {
    var s' := Apply(s, ev);
    hide Distinct, UniqueInv, NoneAlive;
    assert ev.StartSpawn? || ev.ReconfigureSpawn? || ev.WorkerExit? || ev.ParentCancel?;
    forall n | n in names
      ensures n in Todo(s') || Spawned(s', n, g)
    {
      if Spawned(s, n, g) {
        var i :| 0 <= i < |s.workers| && SpawnedAt(s, i, n, g);
        assert SpawnedAt(s', i, n, g);
      } else if n !in Todo(s') {
        assert Todo(s)[0] == n;
        assert SpawnedAt(s', |s.workers|, n, g);
      }
    }
  }

  lemma {:induction false} RunKeepsUnderWay(s: Scheduler, evs: seq<Event>, names: seq<string>, g: nat)
    requires Inv(s) && UnderWay(s, names, g) && Legal(s, evs)
    requires forall ev :: ev in evs ==> !Returns(ev)
    ensures UnderWay(Run(s, evs), names, g)
    decreases |evs|
  {
    if evs == [] {
    } else {
      assert evs[0] in evs;
      forall ev | ev in evs[1..] ensures !Returns(ev) {}
      StepKeepsUnderWay(s, evs[0], names, g);
      RunKeepsInv(s, [evs[0]]);
      OneStep(s, evs[0]);
      hide Apply, Enabled, Inv, UnderWay;
      RunKeepsUnderWay(Apply(s, evs[0]), evs[1..], names, g);
    }
  }

  lemma OneStep(s: Scheduler, ev: Event)
    requires Enabled(s, ev)
    ensures Legal(s, [ev]) && Run(s, [ev]) == Apply(s, ev)
  {
    hide Apply, Enabled;
    assert [ev][1..] == [];
    assert Legal(Apply(s, ev), []);
  }

  /** The scheduler runs and serves exactly `names` under the generation its stored `cancel` cancels. */
  ghost predicate Serving(s: Scheduler, names: seq<string>) {
    && s.running
    && (forall n :: n in names ==> Spawned(s, n, s.current))
    && (forall i :: 0 <= i < |s.workers| && s.workers[i].gen == s.current ==> s.workers[i].name in names)
  }

  /** The step with which a `Start` or a `Reconfigure` begins to start `names`. */
  predicate BeginsStarting(s: Scheduler, ev: Event, names: seq<string>) {
    (ev.StartCall? && ev.names == names && !s.running) || (ev == ReconfigureRelock(names) && s.running)
  }

  lemma {:induction false} BeginsUnderWay(s: Scheduler, ev: Event, names: seq<string>)
    requires Inv(s) && Enabled(s, ev) && BeginsStarting(s, ev, names)
    ensures UnderWay(Apply(s, ev), names, |s.cancelled|) && Todo(Apply(s, ev)) == names
  {
  }

  /** Whatever happens between, when a `Start` of a stopped scheduler, or a `Reconfigure` that found the
      scheduler running after its wait, is about to return, the scheduler runs and has started a goroutine
      for every collector enabled, and for no other, under the new generation. */
  lemma {:induction false} ServingOnReturn(s: Scheduler, ev: Event, names: seq<string>, evs: seq<Event>)
    requires Reachable(s) && Enabled(s, ev) && BeginsStarting(s, ev, names) && Legal(Apply(s, ev), evs)
    requires forall e :: e in evs ==> !Returns(e)
    ensures var s' := Run(Apply(s, ev), evs);
            (Enabled(s', StartReturn) || Enabled(s', ReconfigureReturn)) ==>
              Serving(s', names) && s'.current == |s.cancelled|
  {
    ReachableInv(s);
    BeginsUnderWay(s, ev, names);
    RunKeepsInv(s, [ev]);
    OneStep(s, ev);
    hide Apply, ContextInv, UniqueInv;
    RunKeepsInv(Apply(s, ev), evs);
    RunKeepsUnderWay(Apply(s, ev), evs, names, |s.cancelled|);
    var s' := Run(Apply(s, ev), evs);
    if Enabled(s', StartReturn) || Enabled(s', ReconfigureReturn) {
      assert Todo(s') == [];
    }
  }

  /** And it can return: from every reachable state in which such a call begins, its own steps lead to a
      running scheduler that serves the collectors, with no call under way. */
  lemma {:induction false} StartingCanComplete(s: Scheduler, ev: Event, names: seq<string>) returns (evs: seq<Event>)
    requires Reachable(s) && Enabled(s, ev) && BeginsStarting(s, ev, names)
    ensures Legal(Apply(s, ev), evs)
    ensures var s' := Run(Apply(s, ev), evs);
            Serving(s', names) && s'.current == |s.cancelled| && s'.start.NotStarting? && s'.reconfigure.NotReconfiguring?
  {
    ReachableInv(s);
    BeginsUnderWay(s, ev, names);
    RunKeepsInv(s, [ev]);
    OneStep(s, ev);
    hide Apply, Enabled, Inv;
    evs := SpawningCanComplete(Apply(s, ev), names, |s.cancelled|);
  }

  lemma {:induction false} SpawningCanComplete(s: Scheduler, names: seq<string>, g: nat) returns (evs: seq<Event>)
    requires Inv(s) && UnderWay(s, names, g)
    ensures Legal(s, evs)
    ensures var s' := Run(s, evs);
            Serving(s', names) && s'.current == g && s'.start.NotStarting? && s'.reconfigure.NotReconfiguring?
    decreases |Todo(s)|
  {
    var ev := NextSpawn(s);
    if Todo(s) == [] {
      evs := [ev];
      OneStep(s, ev);
      ReturnServes(s, ev, names, g);
    } else {
      StepKeepsUnderWay(s, ev, names, g);
      RunKeepsInv(s, [ev]);
      OneStep(s, ev);
      hide Apply, Enabled, Inv, UnderWay, Serving;
      var rest := SpawningCanComplete(Apply(s, ev), names, g);
      evs := [ev] + rest;
      assert evs[0] == ev && evs[1..] == rest;
    }
  }

  lemma NextSpawn(s: Scheduler) returns (ev: Event)
    requires PhaseInv(s) && Starting(s)
    ensures Enabled(s, ev) && (Returns(ev) <==> Todo(s) == [])
    ensures Todo(s) != [] ==> |Todo(Apply(s, ev))| < |Todo(s)|
  {
    if s.start.StartSpawning? {
      ev := if s.start.todo == [] then StartReturn else StartSpawn;
    } else {
      ev := if s.reconfigure.todo == [] then ReconfigureReturn else ReconfigureSpawn;
    }
  }

  lemma ReturnServes(s: Scheduler, ev: Event, names: seq<string>, g: nat)
    requires PhaseInv(s) && UnderWay(s, names, g) && Todo(s) == [] && Enabled(s, ev) && Returns(ev)
    ensures var s' := Apply(s, ev);
            Serving(s', names) && s'.current == g && s'.start.NotStarting? && s'.reconfigure.NotReconfiguring?
  {
    var s' := Apply(s, ev);
    forall n | n in names
      ensures Spawned(s', n, g)
    {
      var i :| 0 <= i < |s.workers| && SpawnedAt(s, i, n, g);
      assert SpawnedAt(s', i, n, g);
    }
  }

  lemma {:induction false} RunConcat(s: Scheduler, a: seq<Event>, b: seq<Event>)
    requires Legal(s, a) && Legal(Run(s, a), b)
    ensures Legal(s, a + b) && Run(s, a + b) == Run(Run(s, a), b)
    decreases |a|
  {
    hide Apply, Enabled;
    if a == [] {
      assert a + b == b;
    } else {
      assert (a + b)[0] == a[0] && (a + b)[1..] == a[1..] + b;
      RunConcat(Apply(s, a[0]), a[1..], b);
    }
  }

  lemma ReachableRun(s: Scheduler, evs: seq<Event>)
    requires Reachable(s) && Legal(s, evs)
    ensures Reachable(Run(s, evs))
  {
    hide Legal, Run;
    var before :| Legal(New(), before) && s == Run(New(), before);
    RunConcat(New(), before, evs);
  }

  /** A step appended to a run. */
  lemma ThenStep(s: Scheduler, evs: seq<Event>, ev: Event)
    requires Reachable(s) && Legal(s, evs) && Enabled(Run(s, evs), ev)
    ensures Legal(s, evs + [ev]) && Run(s, evs + [ev]) == Apply(Run(s, evs), ev)
    ensures Reachable(Run(s, evs + [ev]))
  {
    hide Legal, Run, Apply, Enabled, Reachable;
    OneStep(Run(s, evs), ev);
    RunConcat(s, evs, [ev]);
    ReachableRun(s, evs + [ev]);
  }

  /** A `Reconfigure` of a running scheduler can always be carried through: the goroutines exit, and the
      scheduler then runs and serves exactly the collectors enabled by then. */
  lemma {:induction false} ReconfigureCanComplete(s: Scheduler, names: seq<string>) returns (evs: seq<Event>)
    requires Reachable(s) && s.running && Enabled(s, ReconfigureCancel) && Distinct(names)
    ensures Legal(s, [ReconfigureCancel] + evs) && Serving(Run(s, [ReconfigureCancel] + evs), names)
  {
    hide Legal, Run, Reachable, Serving, Inv, AllCancelled;
    OneStep(s, ReconfigureCancel);
    ReachableRun(s, [ReconfigureCancel]);
    var s1 := Apply(s, ReconfigureCancel);
    var exits := WorkersExitFor(s1);
    var s2 := Run(s1, exits);
    ThenStep(s1, exits, ReconfigureWaited);
    var a := exits + [ReconfigureWaited];
    ThenStep(s1, a, ReconfigureRelock(names));
    var s3 := Run(s1, a);
    ReachableRun(s1, a);
    var spawns := StartingCanComplete(s3, ReconfigureRelock(names), names);
    var b := a + [ReconfigureRelock(names)];
    RunConcat(s1, b, spawns);
    RunConcat(s, [ReconfigureCancel], b + spawns);
    evs := b + spawns;
  }

  lemma WorkersExitFor(s: Scheduler) returns (evs: seq<Event>)
    requires Reachable(s) && s.reconfigure.Waiting?
    ensures Legal(s, evs) && Run(s, evs) == s.(workers := Run(s, evs).workers)
    ensures Enabled(Run(s, evs), ReconfigureWaited)
  {
    ReachableInv(s);
    assert AllCancelled(s);
    evs := WorkersCanExit(s);
  }

  /** A `Stop` of a running scheduler can always be carried through: the goroutines exit, nobody is left
      alive, and the scheduler no longer runs. */
  lemma {:induction false} StopCanComplete(s: Scheduler) returns (evs: seq<Event>)
    requires Reachable(s) && s.running && Enabled(s, StopFlip)
    ensures Legal(s, evs)
    ensures !Run(s, evs).running && NoneAlive(Run(s, evs)) && Run(s, evs).stopping == 0
  {
    ReachableInv(s);
    assert s.stopping == 0;
    hide Legal, Run, Reachable, Inv, AllCancelled;
    OneStep(s, StopFlip);
    ReachableRun(s, [StopFlip]);
    var exits := StoppedExit(Apply(s, StopFlip));
    RunConcat(s, [StopFlip], exits);
    evs := [StopFlip] + exits;
    ThenStep(s, evs, StopReturn);
    evs := evs + [StopReturn];
  }

  lemma StoppedExit(s: Scheduler) returns (evs: seq<Event>)
    requires Reachable(s) && !s.running
    ensures Legal(s, evs) && Run(s, evs) == s.(workers := Run(s, evs).workers) && NoneAlive(Run(s, evs))
  {
    ReachableInv(s);
    assert AllCancelled(s);
    evs := WorkersCanExit(s);
  }
}
