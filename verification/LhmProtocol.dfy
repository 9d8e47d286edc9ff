/** The LhmHelper provider as a protocol: any number of `GetData` callers, `Start`, `Stop` and
    `Invalidate` sharing one mutex that is released while a caller sleeps in the restart backoff; helper
    processes that may die at any moment; one worker goroutine per request. Time is abstracted: a
    timeout, a cancellation, a wake-up or a cache expiry may happen whenever the code could observe it. */
module LhmProtocol {
  import opened Records

  // ---------- state ----------

  /** One line of helper output: text that does not parse, or data with its error field. */
  datatype Line = Garbled | Data(error: string, payload: int)

  /** A line together with the request it answers (history); `None` for the one line a helper prints
      unasked, when it cannot open the hardware and exits. */
  datatype Answer = Answer(req: Option<nat>, line: Line)

  /** A spawned helper: the requests it has not answered and the lines nobody has read. `serving` says
      that it has opened the hardware and serves requests. */
  datatype Proc = Proc(alive: bool, serving: bool, stdinOpen: bool, inbox: seq<nat>, outbox: seq<Answer>)

  /** The goroutine that waits for a process to exit and then closes the exit channel it captured when it
      was started, whatever channel the provider's field holds by then. */
  datatype MonitorPc = Waiting | Reaped | Done
  datatype Monitor = Monitor(proc: nat, exitCh: nat, pc: MonitorPc)

  datatype Outcome = Failed | Got(answer: Answer)

  /** The goroutine that writes request `w` (its index) and reads one line. */
  datatype WorkerPc = Starting | Reading | Finished(result: Outcome)

  datatype Worker = Worker(proc: nat, pc: WorkerPc)

  /** Why a request is made: to validate a new process, for `Start` or for a restart; or to refresh. */
  datatype Purpose = Initial(restart: bool) | Refresh

  datatype StopFor = BeforeSpawn | InitialFailed(restart: bool) | RefreshFailed | StopCalled

  /** Where the holder of the mutex is; `Free` when nobody holds it. */
  datatype Pc =
    | Free
    | Entered
    | Stopping(why: StopFor)
    | Spawning(restart: bool)
    | Requesting(purpose: Purpose)
    | Awaiting(purpose: Purpose, w: nat)
    | Draining(purpose: Purpose, w: nat)

  datatype GetResult = NotStarted | Served(answer: Answer) | Error

  datatype Accepted = Accepted(w: nat, answer: Answer)

  /** `processExit` is the provider's current exit channel, an index into `exitChannels`, which counts how
      often each channel was closed. History: `accepted`, the answers taken into the cache with the
      requests they were read for, and `results`, what `GetData` returned. */
  datatype Provider = Provider(
    started: bool, attached: Option<nat>, processExit: Option<nat>, cache: Option<Answer>,
    procs: seq<Proc>, exitChannels: seq<nat>, monitors: seq<Monitor>, workers: seq<Worker>, pc: Pc, sleepers: nat,
    accepted: seq<Accepted>, results: seq<GetResult>)

  function New(): Provider {
    Provider(false, None, None, None, [], [], [], [], Free, 0, [], [])
  }

  // ---------- steps ----------

  datatype Event =
    | StartCall | StopCall | GetCall | Invalidate
    | ServeCached | FoundAlive | FoundDeadSleep | FoundDeadRestart
    | Wake | WakeCancelled
    | StopDone
    | SpawnFails | SpawnOk
    | IssueRequest | Receive | GiveUp | DrainDone
    | WorkerWrite(w: nat) | WorkerRead(w: nat) | WorkerFail(w: nat)
    | HelperOpen(p: nat) | HelperOpenFails(p: nat, error: string)
    | HelperAnswer(p: nat, line: Line) | HelperExit(p: nat)
    | MonitorReaps(m: nat) | MonitorCloses(m: nat)

  /** `isProcessAlive`: attached, and its exit channel is not closed. */
  predicate SeenAlive(s: Provider) {
    s.attached.Some? && !ExitSeen(s)
  }

  /** The provider's exit channel is closed. */
  predicate ExitSeen(s: Provider) {
    s.processExit.Some? && s.processExit.value < |s.exitChannels| && s.exitChannels[s.processExit.value] > 0
  }

  ghost predicate Enabled(s: Provider, ev: Event) {
    match ev
    case StartCall => s.pc.Free? && !s.started
    case StopCall => s.pc.Free? && s.started
    case GetCall => s.pc.Free?
    case Invalidate => s.pc.Free?
    case ServeCached => s.pc.Entered? && s.cache.Some?
    case FoundAlive => s.pc.Entered? && SeenAlive(s)
    case FoundDeadSleep => s.pc.Entered? && !SeenAlive(s)
    case FoundDeadRestart => s.pc.Entered? && !SeenAlive(s)
    case Wake => s.pc.Free? && s.sleepers > 0
    case WakeCancelled => s.pc.Free? && s.sleepers > 0
    case StopDone => s.pc.Stopping? && s.attached.Some? && ExitSeen(s)
    case SpawnFails => s.pc.Spawning?
    case SpawnOk => s.pc.Spawning?
    case IssueRequest => s.pc.Requesting? && s.attached.Some?
    case Receive => s.pc.Awaiting? && s.pc.w < |s.workers| && s.workers[s.pc.w].pc.Finished?
    case GiveUp => s.pc.Awaiting?
    case DrainDone => s.pc.Draining?   // the worker unwound, or the drain bound expired
    case WorkerWrite(w) =>
      w < |s.workers| && s.workers[w].pc.Starting? && s.workers[w].proc < |s.procs| && s.procs[s.workers[w].proc].stdinOpen
    case WorkerRead(w) =>
      w < |s.workers| && s.workers[w].pc.Reading? && s.workers[w].proc < |s.procs|
      && s.procs[s.workers[w].proc].outbox != []
    case WorkerFail(w) => w < |s.workers| && !s.workers[w].pc.Finished?
    case HelperOpen(p) => p < |s.procs| && s.procs[p].alive && !s.procs[p].serving
    case HelperOpenFails(p, error) => p < |s.procs| && s.procs[p].alive && !s.procs[p].serving && error != ""
    case HelperAnswer(p, _) => p < |s.procs| && s.procs[p].alive && s.procs[p].serving && s.procs[p].inbox != []
    case HelperExit(p) => p < |s.procs| && s.procs[p].alive
    case MonitorReaps(m) =>
      m < |s.monitors| && s.monitors[m].pc.Waiting? && s.monitors[m].proc < |s.procs| && !s.procs[s.monitors[m].proc].alive
    case MonitorCloses(m) => m < |s.monitors| && s.monitors[m].pc.Reaped? && s.monitors[m].exitCh < |s.exitChannels|
  }

  /** `stopProcess` from its start: with nothing attached it returns at once, otherwise it closes stdin
      and waits for the exit channel (killing the process if that takes too long). */
  function BeginStop(s: Provider, why: StopFor): Provider {
    if s.attached.Some? && s.attached.value < |s.procs| then
      var p := s.attached.value;
      s.(procs := s.procs[p := s.procs[p].(stdinOpen := false)], pc := Stopping(why))
    else AfterStop(s, why)
  }

  /** What the caller of `stopProcess` does next. */
  function AfterStop(s: Provider, why: StopFor): Provider {
    match why
    case BeforeSpawn => s.(pc := Spawning(true))
    case InitialFailed(restart) => StartFailed(s, restart)
    case RefreshFailed => Return(s, Error)
    case StopCalled => s.(pc := Free)
  }

  /** `startProcess` returned an error, to `restartWithBackoff` or to `Start`. */
  function StartFailed(s: Provider, restart: bool): Provider {
    if restart then Return(s, Error) else s.(started := false, pc := Free)
  }

  function Return(s: Provider, r: GetResult): Provider {
    s.(results := s.results + [r], pc := Free)
  }

  function RequestFailed(s: Provider, purpose: Purpose): Provider {
    match purpose
    case Initial(restart) => BeginStop(s, InitialFailed(restart))
    case Refresh => BeginStop(s, RefreshFailed)
  }

  /** A response was read without error: an error inside the data is reported, and a process that
      answers its first request with one is stopped; other data goes into the cache. */
  function RequestAnswered(s: Provider, purpose: Purpose, w: nat, a: Answer): Provider
    requires a.line.Data?
  {
    if a.line.error != "" then
      match purpose
      case Initial(restart) => BeginStop(s, InitialFailed(restart))
      case Refresh => Return(s, Error)
    else
      var s' := s.(cache := Some(a), accepted := s.accepted + [Accepted(w, a)]);
      match purpose
      case Initial(restart) => if restart then s'.(pc := Requesting(Refresh)) else s'.(pc := Free)
      case Refresh => Return(s', Served(a))
  }

  function SetWorker(s: Provider, w: nat, pc: WorkerPc): Provider
    requires w < |s.workers|
  {
    s.(workers := s.workers[w := s.workers[w].(pc := pc)])
  }

  function SetProc(s: Provider, p: nat, x: Proc): Provider
    requires p < |s.procs|
  {
    s.(procs := s.procs[p := x])
  }

  function SetMonitor(s: Provider, m: nat, pc: MonitorPc): Provider
    requires m < |s.monitors|
  {
    s.(monitors := s.monitors[m := s.monitors[m].(pc := pc)])
  }

  function Apply(s: Provider, ev: Event): Provider
    requires Enabled(s, ev)
  {
    match ev
    case StartCall => s.(started := true, pc := Spawning(false))
    case StopCall => BeginStop(s.(started := false), StopCalled)
    case GetCall => if s.started then s.(pc := Entered) else Return(s, NotStarted)
    case Invalidate => s.(cache := None)
    case ServeCached => Return(s, Served(s.cache.value))
    case FoundAlive => s.(pc := Requesting(Refresh))
    case FoundDeadSleep => s.(sleepers := s.sleepers + 1, pc := Free)
    case FoundDeadRestart => BeginStop(s, BeforeSpawn)
    case Wake =>
      var s' := s.(sleepers := s.sleepers - 1);
      if s.started then BeginStop(s', BeforeSpawn) else Return(s', Error)
    case WakeCancelled => Return(s.(sleepers := s.sleepers - 1), Error)
    case StopDone => AfterStop(s.(attached := None), s.pc.why)
    case SpawnFails => StartFailed(s, s.pc.restart)
    case SpawnOk =>
      s.(procs := s.procs + [Proc(true, false, true, [], [])], attached := Some(|s.procs|),
         exitChannels := s.exitChannels + [0], processExit := Some(|s.exitChannels|),
         monitors := s.monitors + [Monitor(|s.procs|, |s.exitChannels|, Waiting)],
         pc := Requesting(Initial(s.pc.restart)))
    case IssueRequest =>
      s.(workers := s.workers + [Worker(s.attached.value, Starting)], pc := Awaiting(s.pc.purpose, |s.workers|))
    case Receive =>
      (match s.workers[s.pc.w].pc.result
       case Failed => RequestFailed(s, s.pc.purpose)
       case Got(a) =>
         if a.line.Data? then RequestAnswered(s, s.pc.purpose, s.pc.w, a)
         else RequestFailed(s, s.pc.purpose))
    case GiveUp => s.(pc := Draining(s.pc.purpose, s.pc.w))
    case DrainDone => RequestFailed(s, s.pc.purpose)
    case WorkerWrite(w) =>
      var p := s.workers[w].proc;
      SetProc(SetWorker(s, w, Reading), p, s.procs[p].(inbox := s.procs[p].inbox + [w]))
    case WorkerRead(w) =>
      var p := s.workers[w].proc;
      var a := s.procs[p].outbox[0];
      SetProc(SetWorker(s, w, Finished(if a.line.Garbled? then Failed else Got(a))),
              p, s.procs[p].(outbox := s.procs[p].outbox[1..]))
    case WorkerFail(w) => SetWorker(s, w, Finished(Failed))
    case HelperOpen(p) => SetProc(s, p, s.procs[p].(serving := true))
    case HelperOpenFails(p, error) =>
      SetProc(s, p, s.procs[p].(outbox := s.procs[p].outbox + [Answer(None, Data(error, 0))], alive := false))
    case HelperAnswer(p, line) =>
      var x := s.procs[p];
      SetProc(s, p, x.(inbox := x.inbox[1..], outbox := x.outbox + [Answer(Some(x.inbox[0]), line)]))
    case HelperExit(p) => SetProc(s, p, s.procs[p].(alive := false))
    case MonitorReaps(m) => SetMonitor(s, m, Reaped)
    case MonitorCloses(m) =>
      var ch := s.monitors[m].exitCh;
      SetMonitor(s, m, Done).(exitChannels := s.exitChannels[ch := s.exitChannels[ch] + 1])
  }

  ghost predicate Legal(s: Provider, evs: seq<Event>)
    decreases |evs|
  {
    evs == [] || (Enabled(s, evs[0]) && Legal(Apply(s, evs[0]), evs[1..]))
  }

  function Run(s: Provider, evs: seq<Event>): Provider
    requires Legal(s, evs)
    decreases |evs|
  {
    if evs == [] then s else Run(Apply(s, evs[0]), evs[1..])
  }

  ghost predicate Reachable(s: Provider) {
    exists evs :: Legal(New(), evs) && s == Run(New(), evs)
  }

  // ---------- invariant ----------

  /** Process `p` has its own monitor and its own exit channel, which is closed, once, by that monitor
      after the process is gone; and this has happened unless the process is attached. */
  ghost predicate MonitorInv(s: Provider, p: nat)
    requires p < |s.procs| == |s.monitors| == |s.exitChannels|
  {
    && s.monitors[p].proc == p && s.monitors[p].exitCh == p
    && (!s.monitors[p].pc.Waiting? ==> !s.procs[p].alive)
    && s.exitChannels[p] == (if s.monitors[p].pc.Done? then 1 else 0)
    && (s.attached != Some(p) ==> s.exitChannels[p] == 1)
  }

  ghost predicate ProcInv(s: Provider) {
    && |s.procs| == |s.monitors| == |s.exitChannels|
    && (s.attached.Some? ==> s.attached.value < |s.procs| && s.processExit == s.attached)
    && (forall p: nat :: p < |s.procs| ==> MonitorInv(s, p))
    && (forall w: nat :: w < |s.workers| ==> s.workers[w].proc < |s.procs|)
  }

  /** The only line a process that never served requests can have printed. */
  ghost predicate StartupError(x: Proc) {
    && !x.serving && !x.alive && |x.outbox| == 1
    && x.outbox[0].req.None? && x.outbox[0].line.Data? && x.outbox[0].line.error != ""
  }

  /** No request to process `p` is outstanding and no line from it is unread; before the first request
      a startup error may be. */
  ghost predicate Quiet(s: Provider, p: nat, first: bool) {
    && p < |s.procs| && s.procs[p].stdinOpen && s.procs[p].inbox == []
    && (s.procs[p].outbox == [] || StartupError(s.procs[p]))
    && (s.procs[p].serving || first)
    && OthersFinished(s, p, |s.workers|)
  }

  ghost predicate OthersFinished(s: Provider, p: nat, w: nat) {
    forall v: nat :: v < |s.workers| && v != w && s.workers[v].proc == p ==> s.workers[v].pc.Finished?
  }

  /** Worker `w` is the only one using process `p`, and what is in the pipes is its own exchange. */
  ghost predicate Exchanging(s: Provider, p: nat, w: nat, first: bool) {
    && p < |s.procs| && w < |s.workers| && s.workers[w].proc == p && OthersFinished(s, p, w)
    && s.procs[p].stdinOpen
    && (s.procs[p].serving || first)
    && var x := s.procs[p];
       match s.workers[w].pc
       case Starting => x.inbox == [] && (x.outbox == [] || StartupError(x))
       case Reading =>
         || (x.inbox == [w] && (x.outbox == [] || StartupError(x)))
         || (x.serving && x.inbox == [] && |x.outbox| == 1 && x.outbox[0].req == Some(w))
       case Finished(Failed) => true
       case Finished(Got(a)) =>
         && a.line.Data?
         && (if x.serving then x.inbox == [] && x.outbox == [] && a.req == Some(w) else !x.alive && a.line.error != "")
  }

  ghost predicate PcInv(s: Provider) {
    match s.pc
    case Free => if s.attached.Some? then s.started && Quiet(s, s.attached.value, false) else true
    case Entered => s.started && (s.attached.Some? ==> Quiet(s, s.attached.value, false))
    case Stopping(why) => s.attached.Some? && (why.StopCalled? <==> !s.started)
    case Spawning(_) => s.started && s.attached.None?
    case Requesting(purpose) => s.started && s.attached.Some? && Quiet(s, s.attached.value, purpose.Initial?)
    case Awaiting(purpose, w) =>
      s.started && s.attached.Some? && Exchanging(s, s.attached.value, w, purpose.Initial?)
    case Draining(_, w) => s.started && s.attached.Some?
  }

  ghost predicate AnswersInv(s: Provider) {
    && (forall i :: 0 <= i < |s.accepted| ==>
          s.accepted[i].answer.req == Some(s.accepted[i].w) && CleanData(s.accepted[i].answer))
    && (s.cache.Some? ==> WasAccepted(s, s.cache.value))
    && (forall i :: 0 <= i < |s.results| && s.results[i].Served? ==> WasAccepted(s, s.results[i].answer))
  }

  ghost predicate CleanData(a: Answer) {
    a.line.Data? && a.line.error == ""
  }

  ghost predicate WasAccepted(s: Provider, a: Answer) {
    exists i :: 0 <= i < |s.accepted| && s.accepted[i].answer == a
  }

  ghost predicate Inv(s: Provider) {
    ProcInv(s) && PcInv(s) && AnswersInv(s)
  }

  // ---------- every step keeps it ----------

  /** Steps of a worker goroutine, of a helper, and of the goroutine waiting for its exit. */
  predicate WorkerStep(ev: Event) {
    ev.WorkerWrite? || ev.WorkerRead? || ev.WorkerFail?
  }

  predicate HelperStep(ev: Event) {
    ev.HelperOpen? || ev.HelperOpenFails? || ev.HelperAnswer? || ev.HelperExit?
  }

  predicate MonitorStep(ev: Event) {
    ev.MonitorReaps? || ev.MonitorCloses?
  }

  /** A step of this kind leaves processes alive or not, and everything about exits, as they are. */
  ghost predicate SameExits(s: Provider, s': Provider) {
    && s'.monitors == s.monitors && s'.exitChannels == s.exitChannels && s'.processExit == s.processExit
    && (s'.attached == s.attached || (s'.attached.None? && ExitSeen(s)))
    && |s'.procs| == |s.procs| && (forall p: nat :: p < |s.procs| && s'.procs[p].alive ==> s.procs[p].alive)
    && (forall w: nat :: w < |s'.workers| ==> s'.workers[w].proc < |s.procs|)
  }

  lemma {:induction false} SameExitsKeepProcInv(s: Provider, s': Provider)
    requires ProcInv(s) && SameExits(s, s')
    ensures ProcInv(s')
  {
    forall p: nat | p < |s'.procs|
      ensures MonitorInv(s', p)
    {
      assert MonitorInv(s, p);
    }
  }

  lemma {:induction false} BeginStopExits(s: Provider, why: StopFor)
    requires forall w: nat :: w < |s.workers| ==> s.workers[w].proc < |s.procs|
    ensures SameExits(s, BeginStop(s, why))
  {
  }

  lemma {:induction false} FailedExits(s: Provider, purpose: Purpose)
    requires forall w: nat :: w < |s.workers| ==> s.workers[w].proc < |s.procs|
    ensures SameExits(s, RequestFailed(s, purpose))
  {
    hide BeginStop;
    match purpose
    case Initial(restart) => BeginStopExits(s, InitialFailed(restart));
    case Refresh => BeginStopExits(s, RefreshFailed);
  }

  lemma {:induction false} ReceiveExits(s: Provider)
    requires forall w: nat :: w < |s.workers| ==> s.workers[w].proc < |s.procs|
    requires Enabled(s, Receive)
    ensures SameExits(s, Apply(s, Receive))
  {
    hide BeginStop;
    FailedExits(s, s.pc.purpose);
    if s.pc.purpose.Initial? {
      BeginStopExits(s, InitialFailed(s.pc.purpose.restart));
    }
  }

  lemma {:induction false} WorkerExits(s: Provider, ev: Event)
    requires forall w: nat :: w < |s.workers| ==> s.workers[w].proc < |s.procs|
    requires Enabled(s, ev) && WorkerStep(ev)
    ensures SameExits(s, Apply(s, ev))
  {
  }

  lemma {:induction false} HelperExits(s: Provider, ev: Event)
    requires forall w: nat :: w < |s.workers| ==> s.workers[w].proc < |s.procs|
    requires Enabled(s, ev) && HelperStep(ev)
    ensures SameExits(s, Apply(s, ev))
  {
  }

  lemma {:induction false} ControlExits(s: Provider, ev: Event)
    requires ProcInv(s) && PcInv(s) && Enabled(s, ev)
    requires !WorkerStep(ev) && !HelperStep(ev) && !MonitorStep(ev) && !ev.Receive? && !ev.SpawnOk?
    ensures SameExits(s, Apply(s, ev))
  {
    hide Quiet, Exchanging, BeginStop;
    match ev
    case StopCall => BeginStopExits(s.(started := false), StopCalled);
    case FoundDeadRestart => BeginStopExits(s, BeforeSpawn);
    case Wake => BeginStopExits(s.(sleepers := s.sleepers - 1), BeforeSpawn);
    case DrainDone => FailedExits(s, s.pc.purpose);
    case _ =>
  }

  /** A spawned process comes with a channel and a monitor of its own; nothing was attached before. */
  lemma {:induction false} SpawnKeepsProcInv(s: Provider)
    requires ProcInv(s) && PcInv(s) && Enabled(s, SpawnOk)
    ensures ProcInv(Apply(s, SpawnOk))
  {
    var s' := Apply(s, SpawnOk);
    forall p: nat | p < |s'.procs|
      ensures MonitorInv(s', p)
    {
      assert p < |s.procs| ==> MonitorInv(s, p);
    }
  }

  lemma {:induction false} MonitorKeepsProcInv(s: Provider, ev: Event)
    requires ProcInv(s) && Enabled(s, ev) && MonitorStep(ev)
    ensures ProcInv(Apply(s, ev))
  {
    assert MonitorInv(s, ev.m);
    var s' := Apply(s, ev);
    forall p: nat | p < |s'.procs|
      ensures MonitorInv(s', p)
    {
      assert MonitorInv(s, p);
    }
  }

  lemma {:induction false} KeepsProcInv(s: Provider, ev: Event)
    requires ProcInv(s) && PcInv(s) && Enabled(s, ev)
    ensures ProcInv(Apply(s, ev))
  {
    assert forall w: nat :: w < |s.workers| ==> s.workers[w].proc < |s.procs|;
    hide ProcInv, PcInv, Apply, Enabled, SameExits;
    if ev.SpawnOk? {
      SpawnKeepsProcInv(s);
    } else if MonitorStep(ev) {
      MonitorKeepsProcInv(s, ev);
    } else {
      if ev.Receive? {
        ReceiveExits(s);
      } else if WorkerStep(ev) {
        WorkerExits(s, ev);
      } else if HelperStep(ev) {
        HelperExits(s, ev);
      } else {
        ControlExits(s, ev);
      }
      SameExitsKeepProcInv(s, Apply(s, ev));
    }
  }

  // ---------- answers ----------

  lemma {:induction false} AcceptKeepsAnswersInv(s: Provider, s': Provider, x: Accepted)
    requires AnswersInv(s) && x.answer.req == Some(x.w) && CleanData(x.answer)
    requires s'.accepted == s.accepted + [x] && s'.cache == Some(x.answer)
    requires s'.results == s.results || s'.results == s.results + [Served(x.answer)]
    ensures AnswersInv(s')
  {
    assert s'.accepted[|s.accepted|].answer == x.answer;
    forall a | WasAccepted(s, a)
      ensures WasAccepted(s', a)
    {
      var i :| 0 <= i < |s.accepted| && s.accepted[i].answer == a;
      assert s'.accepted[i].answer == a;
    }
  }

  /** Nothing accepted, and at most one more result that serves nothing new. */
  lemma {:induction false} OtherwiseKeepsAnswersInv(s: Provider, s': Provider)
    requires AnswersInv(s) && s'.accepted == s.accepted
    requires s'.cache.None? || s'.cache == s.cache
    requires s'.results == s.results || s'.results == s.results + [Error] || s'.results == s.results + [NotStarted]
          || (s.cache.Some? && s'.results == s.results + [Served(s.cache.value)])
    ensures AnswersInv(s')
  {
    assert forall a :: WasAccepted(s, a) ==> WasAccepted(s', a);
  }

  lemma {:induction false} KeepsAnswersInv(s: Provider, ev: Event)
    requires PcInv(s) && AnswersInv(s) && Enabled(s, ev)
    ensures AnswersInv(Apply(s, ev))
  {
    var s' := Apply(s, ev);
    if s'.accepted == s.accepted {
      QuietOtherwise(s, ev);
      OtherwiseKeepsAnswersInv(s, s');
    } else {
      AcceptsOnlyItsOwn(s, ev);
      var a := s.workers[s.pc.w].pc.result.answer;
      AcceptKeepsAnswersInv(s, s', Accepted(s.pc.w, a));
    }
  }

  lemma {:induction false} BeginStopAnswers(s: Provider, why: StopFor)
    ensures var s' := BeginStop(s, why);
            && s'.accepted == s.accepted && s'.cache == s.cache
            && (s'.results == s.results || s'.results == s.results + [Error])
  {
  }

  lemma {:induction false} QuietOtherwise(s: Provider, ev: Event)
    requires Enabled(s, ev) && Apply(s, ev).accepted == s.accepted
    ensures var s' := Apply(s, ev);
            && (s'.cache.None? || s'.cache == s.cache)
            && (s'.results == s.results || s'.results == s.results + [Error] || s'.results == s.results + [NotStarted]
                || (s.cache.Some? && s'.results == s.results + [Served(s.cache.value)]))
  {
    hide BeginStop;
    match ev
    case StopCall => BeginStopAnswers(s.(started := false), StopCalled);
    case FoundDeadRestart => BeginStopAnswers(s, BeforeSpawn);
    case Wake => BeginStopAnswers(s.(sleepers := s.sleepers - 1), BeforeSpawn);
    case DrainDone => FailedAnswers(s, s.pc.purpose);
    case Receive => ReceiveAnswers(s);
    case _ =>
  }

  lemma {:induction false} FailedAnswers(s: Provider, purpose: Purpose)
    ensures var s' := RequestFailed(s, purpose);
            && s'.accepted == s.accepted && s'.cache == s.cache
            && (s'.results == s.results || s'.results == s.results + [Error])
  {
    hide BeginStop;
    match purpose
    case Initial(restart) => BeginStopAnswers(s, InitialFailed(restart));
    case Refresh => BeginStopAnswers(s, RefreshFailed);
  }

  lemma {:induction false} ReceiveAnswers(s: Provider)
    requires Enabled(s, Receive) && Apply(s, Receive).accepted == s.accepted
    ensures var s' := Apply(s, Receive);
            && s'.cache == s.cache
            && (s'.results == s.results || s'.results == s.results + [Error])
  {
    hide BeginStop;
    FailedAnswers(s, s.pc.purpose);
    if s.pc.purpose.Initial? {
      BeginStopAnswers(s, InitialFailed(s.pc.purpose.restart));
    }
  }

  lemma {:induction false} OnlyReceiveAccepts(s: Provider, ev: Event)
    requires Enabled(s, ev) && !ev.Receive?
    ensures Apply(s, ev).accepted == s.accepted
  {
    hide BeginStop;
    match ev
    case StopCall => BeginStopAnswers(s.(started := false), StopCalled);
    case FoundDeadRestart => BeginStopAnswers(s, BeforeSpawn);
    case Wake => BeginStopAnswers(s.(sleepers := s.sleepers - 1), BeforeSpawn);
    case DrainDone => FailedAnswers(s, s.pc.purpose);
    case _ =>
  }

  /** The only step that accepts an answer is the receipt of the awaited worker's result, and that
      answer is to the worker's own request. */
  lemma {:induction false} AcceptsOnlyItsOwn(s: Provider, ev: Event)
    requires PcInv(s) && Enabled(s, ev) && Apply(s, ev).accepted != s.accepted
    ensures ev.Receive? && s.workers[s.pc.w].pc.result.Got?
    ensures var s', a := Apply(s, ev), s.workers[s.pc.w].pc.result.answer;
            && a.req == Some(s.pc.w) && CleanData(a)
            && s'.accepted == s.accepted + [Accepted(s.pc.w, a)] && s'.cache == Some(a)
            && (s'.results == s.results || s'.results == s.results + [Served(a)])
  {
    if ev.Receive? {
      hide BeginStop;
      FailedAnswers(s, s.pc.purpose);
      if s.pc.purpose.Initial? {
        BeginStopAnswers(s, InitialFailed(s.pc.purpose.restart));
      }
    } else {
      hide PcInv;
      OnlyReceiveAccepts(s, ev);
    }
  }

  // ---------- the exchange with the helper ----------

  lemma {:induction false} WriteKeepsPcInv(s: Provider, w: nat)
    requires ProcInv(s) && PcInv(s) && Enabled(s, WorkerWrite(w))
    ensures PcInv(Apply(s, WorkerWrite(w)))
  {
  }

  lemma {:induction false} ReadKeepsPcInv(s: Provider, w: nat)
    requires ProcInv(s) && PcInv(s) && Enabled(s, WorkerRead(w))
    ensures PcInv(Apply(s, WorkerRead(w)))
  {
  }

  lemma {:induction false} FailKeepsPcInv(s: Provider, w: nat)
    requires ProcInv(s) && PcInv(s) && Enabled(s, WorkerFail(w))
    ensures PcInv(Apply(s, WorkerFail(w)))
  {
  }

  lemma {:induction false} AnswerKeepsPcInv(s: Provider, p: nat, line: Line)
    requires ProcInv(s) && PcInv(s) && Enabled(s, HelperAnswer(p, line))
    ensures PcInv(Apply(s, HelperAnswer(p, line)))
  {
  }

  lemma {:induction false} LifeKeepsPcInv(s: Provider, ev: Event)
    requires ProcInv(s) && PcInv(s) && Enabled(s, ev) && HelperStep(ev) && !ev.HelperAnswer?
    ensures PcInv(Apply(s, ev))
  {
  }

  lemma {:induction false} ReceiveKeepsPcInv(s: Provider)
    requires ProcInv(s) && PcInv(s) && Enabled(s, Receive)
    ensures PcInv(Apply(s, Receive))
  {
  }

  /** The steps that begin to stop the process, or have stopped it. */
  predicate StopStep(ev: Event) {
    ev.StopCall? || ev.FoundDeadRestart? || ev.Wake? || ev.DrainDone? || ev.StopDone?
  }

  lemma {:induction false} StopKeepsPcInv(s: Provider, ev: Event)
    requires ProcInv(s) && PcInv(s) && Enabled(s, ev) && StopStep(ev)
    ensures PcInv(Apply(s, ev))
  {
  }

  lemma {:induction false} ControlKeepsPcInv(s: Provider, ev: Event)
    requires ProcInv(s) && PcInv(s) && Enabled(s, ev)
    requires !StopStep(ev) && !WorkerStep(ev) && !HelperStep(ev) && !ev.Receive?
    ensures PcInv(Apply(s, ev))
  {
  }

  lemma {:induction false} KeepsPcInv(s: Provider, ev: Event)
    requires ProcInv(s) && PcInv(s) && Enabled(s, ev)
    ensures PcInv(Apply(s, ev))
  {
    hide ProcInv, PcInv, Apply, Enabled;
    if ev.WorkerWrite? {
      WriteKeepsPcInv(s, ev.w);
    } else if ev.WorkerRead? {
      ReadKeepsPcInv(s, ev.w);
    } else if ev.WorkerFail? {
      FailKeepsPcInv(s, ev.w);
    } else if ev.HelperAnswer? {
      AnswerKeepsPcInv(s, ev.p, ev.line);
    } else if ev.Receive? {
      ReceiveKeepsPcInv(s);
    } else if HelperStep(ev) {
      LifeKeepsPcInv(s, ev);
    } else if StopStep(ev) {
      StopKeepsPcInv(s, ev);
    } else {
      ControlKeepsPcInv(s, ev);
    }
  }

  lemma {:induction false} StepKeepsInv(s: Provider, ev: Event)
    requires Inv(s) && Enabled(s, ev)
    ensures Inv(Apply(s, ev))
  {
    hide ProcInv, PcInv, AnswersInv, Apply, Enabled;
    KeepsProcInv(s, ev);
    KeepsPcInv(s, ev);
    KeepsAnswersInv(s, ev);
  }

  lemma {:induction false} RunKeepsInv(s: Provider, evs: seq<Event>)
    requires Inv(s) && Legal(s, evs)
    ensures Inv(Run(s, evs))
    decreases |evs|
  {
    hide Inv;
    if evs == [] {
    } else {
      StepKeepsInv(s, evs[0]);
      RunKeepsInv(Apply(s, evs[0]), evs[1..]);
    }
  }

  lemma {:induction false} ReachableInv(s: Provider)
    requires Reachable(s)
    ensures Inv(s)
  {
    var evs :| Legal(New(), evs) && s == Run(New(), evs);
    RunKeepsInv(New(), evs);
  }

  // ---------- what holds over every run ----------

  /** Every response accepted answers the request its own worker wrote, and what `GetData` returns and
      the cache holds is such a response, free of errors. */
  lemma {:induction false} ResponsesAligned(s: Provider, i: nat)
    requires Reachable(s)
    ensures i < |s.accepted| ==> s.accepted[i].answer.req == Some(s.accepted[i].w) && CleanData(s.accepted[i].answer)
    ensures i < |s.results| && s.results[i].Served? ==>
              WasAccepted(s, s.results[i].answer) && CleanData(s.results[i].answer)
    ensures s.cache.Some? ==> WasAccepted(s, s.cache.value) && CleanData(s.cache.value)
  {
    ReachableInv(s);
  }

  /** At most one helper is alive; and with the mutex free and the provider not started no process is
      attached, and then none is alive. */
  lemma {:induction false} AtMostOneHelper(s: Provider)
    requires Reachable(s)
    ensures forall p: nat, q: nat :: p < |s.procs| && q < |s.procs| && s.procs[p].alive && s.procs[q].alive ==> p == q
    ensures s.pc.Free? && !s.started ==>
              s.attached.None? && forall p: nat :: p < |s.procs| ==> !s.procs[p].alive && ExitReported(s, p)
  {
    ReachableInv(s);
    forall p: nat | p < |s.procs| && s.attached != Some(p)
      ensures !s.procs[p].alive && ExitReported(s, p)
    {
      DetachedHasExited(s, p);
    }
  }

  /** The exit of process `p` was reported once, on a channel no other monitor has captured. */
  ghost predicate ExitReported(s: Provider, p: nat) {
    && p < |s.monitors| == |s.exitChannels|
    && s.monitors[p].proc == p && s.monitors[p].exitCh < |s.exitChannels|
    && s.exitChannels[s.monitors[p].exitCh] == 1
    && (forall m: nat :: m < |s.monitors| && s.monitors[m].exitCh == s.monitors[p].exitCh ==> m == p)
  }

  lemma {:induction false} DetachedHasExited(s: Provider, p: nat)
    requires ProcInv(s) && p < |s.procs| && s.attached != Some(p)
    ensures !s.procs[p].alive && ExitReported(s, p)
  {
    assert MonitorInv(s, p);
    forall m: nat | m < |s.monitors|
      ensures s.monitors[m].exitCh == m
    {
      assert MonitorInv(s, m);
    }
  }

  /** No exit channel is ever closed twice; none is closed while the process whose monitor captured it is
      alive; and while a process is attached the provider's exit channel is the one its monitor captured. */
  lemma {:induction false} ExitChannelsClosedOnce(s: Provider)
    requires Reachable(s)
    ensures forall ch: nat :: ch < |s.exitChannels| ==> s.exitChannels[ch] <= 1
    ensures forall m: nat :: m < |s.monitors| ==>
              && s.monitors[m].exitCh < |s.exitChannels| && s.monitors[m].proc < |s.procs|
              && (s.procs[s.monitors[m].proc].alive ==> s.exitChannels[s.monitors[m].exitCh] == 0)
              && (s.attached == Some(s.monitors[m].proc) ==> s.processExit == Some(s.monitors[m].exitCh))
  {
    ReachableInv(s);
    forall ch: nat | ch < |s.exitChannels|
      ensures s.exitChannels[ch] <= 1
    {
      assert MonitorInv(s, ch);
    }
    forall m: nat | m < |s.monitors|
      ensures s.monitors[m].exitCh == m == s.monitors[m].proc && (s.procs[m].alive ==> s.exitChannels[m] == 0)
    {
      assert MonitorInv(s, m);
    }
  }

  /** Each spawned process has exited, and its exit was reported, before the next spawn. */
  lemma {:induction false} SpawnAfterExit(s: Provider, p: nat)
    requires Reachable(s) && Enabled(s, SpawnOk) && p < |s.procs|
    ensures !s.procs[p].alive && ExitReported(s, p)
  {
    ReachableInv(s);
    DetachedHasExited(s, p);
  }

  /** At most one worker can be in the middle of an exchange with the attached process whenever a new
      request is about to be made: none. A worker abandoned by a drain timeout is stuck with a process
      that is no longer attached. */
  lemma {:induction false} NoStaleWorker(s: Provider, w: nat)
    requires Reachable(s) && s.pc.Requesting? && w < |s.workers| && !s.workers[w].pc.Finished?
    ensures s.attached.Some? && s.workers[w].proc != s.attached.value && s.workers[w].proc < |s.procs|
    ensures !s.procs[s.workers[w].proc].alive
  {
    ReachableInv(s);
    DetachedHasExited(s, s.workers[w].proc);
  }
}
