/** What the LhmHelper provider can always do: serve a caller from a live helper, from the cache, or from a
    new helper in place of a dead one; start; stop; and forget what was cached. */
module LhmService {
  import opened Records
  import opened LhmProtocol

  // ---------- a request is served ----------

  /** Receiving a clean answer to a refresh serves it: the answer is returned and becomes the cache. One
      with an error inside is reported, and the cache stays. */
  lemma {:induction false} ReceiveServes(s: Provider, a: Answer)
    requires Enabled(s, Receive) && s.pc.purpose.Refresh? && a.line.Data?
    requires s.workers[s.pc.w].pc == Finished(Got(a))
    ensures var s' := Apply(s, Receive);
            && s'.pc.Free? && s'.attached == s.attached
            && (if CleanData(a) then s'.results == s.results + [Served(a)] && s'.cache == Some(a)
                else s'.results == s.results + [Error] && s'.cache == s.cache)
  {
  }

  lemma {:induction false} RunConcat(s: Provider, a: seq<Event>, b: seq<Event>)
    requires Legal(s, a) && Legal(Run(s, a), b)
    ensures Legal(s, a + b) && Run(s, a + b) == Run(Run(s, a), b)
    decreases |a|
  {
    hide Apply, Enabled;
    if a == [] {
      assert a + b == b;
    } else {
      assert (a + b)[0] == a[0] && (a + b)[1..] == a[1..] + b;
      RunConcat(Apply(s, a[0]), a[1..], b);
    }
  }

  /** A run is one longer. */
  lemma ThenStep(s: Provider, evs: seq<Event>, ev: Event)
    requires Legal(s, evs) && Enabled(Run(s, evs), ev)
    ensures Legal(s, evs + [ev]) && Run(s, evs + [ev]) == Apply(Run(s, evs), ev)
  {
    hide Apply, Enabled;
    var t := Run(s, evs);
    assert [ev][1..] == [];
    assert Legal(Apply(t, ev), []);
    assert Legal(t, [ev]) && Run(t, [ev]) == Apply(t, ev);
    RunConcat(s, evs, [ev]);
  }

  /** The attached process runs, and no request to it is under way. */
  ghost predicate Ready(s: Provider) {
    && s.pc.Requesting? && s.attached.Some?
    && var p := s.attached.value;
       && p < |s.procs| && s.procs[p].alive && s.procs[p].stdinOpen
       && s.procs[p].inbox == [] && s.procs[p].outbox == []
       && (s.procs[p].serving || s.pc.purpose.Initial?)
  }

  /** The state in which the worker of the next request has written it, once the process serves. */
  function Asked(s: Provider): Provider
    requires Ready(s)
  {
    var p, w := s.attached.value, |s.workers|;
    s.(workers := s.workers + [Worker(p, Reading)], pc := Awaiting(s.pc.purpose, w),
       procs := s.procs[p := s.procs[p].(inbox := [w], serving := true)])
  }

  /** The request has been issued to its worker; and the process has opened the hardware. */
  function Issued(s: Provider): Provider
    requires Ready(s)
  {
    s.(workers := s.workers + [Worker(s.attached.value, Starting)], pc := Awaiting(s.pc.purpose, |s.workers|))
  }

  function Opened(s: Provider): Provider
    requires Ready(s)
  {
    SetProc(Issued(s), s.attached.value, s.procs[s.attached.value].(serving := true))
  }

  lemma AskRun(s: Provider) returns (evs: seq<Event>)
    requires Ready(s)
    ensures Legal(s, evs) && Run(s, evs) == Asked(s)
  {
    var p, w := s.attached.value, |s.workers|;
    StartsWith(s, IssueRequest);
    var s1 := Apply(s, IssueRequest);
    assert s1 == Issued(s);
    evs := [IssueRequest];
    var ev, s2 := WriteOrOpen(s, s1);
    ThenStep(s, evs, ev);
    evs := evs + [ev];
    if s.procs[p].serving {
      assert s2 == Asked(s);
    } else {
      assert Enabled(s2, WorkerWrite(w));
      WritesAsked(s, s2);
      hide Apply, Enabled, Asked, Ready;
      ThenStep(s, evs, WorkerWrite(w));
      evs := evs + [WorkerWrite(w)];
    }
  }

  /** The first step after the request was issued: a process that serves takes it, another one opens the
      hardware first. */
  lemma WriteOrOpen(s: Provider, s1: Provider) returns (ev: Event, s2: Provider)
    requires Ready(s)
    requires s1 == Issued(s)
    ensures Enabled(s1, ev) && s2 == Apply(s1, ev)
    ensures s.procs[s.attached.value].serving ==> s2 == Asked(s)
    ensures !s.procs[s.attached.value].serving ==> s2 == Opened(s)
  {
    var p, w := s.attached.value, |s.workers|;
    if s.procs[p].serving {
      ev := WorkerWrite(w);
      assert s1.workers[w := Worker(p, Reading)] == s.workers + [Worker(p, Reading)];
      assert s1.procs[p].inbox + [w] == [w];
    } else {
      ev := HelperOpen(p);
    }
    s2 := Apply(s1, ev);
  }

  lemma WritesAsked(s: Provider, s2: Provider)
    requires Ready(s) && !s.procs[s.attached.value].serving
    requires s2 == Opened(s)
    ensures Enabled(s2, WorkerWrite(|s.workers|)) && Apply(s2, WorkerWrite(|s.workers|)) == Asked(s)
  {
    var p, w := s.attached.value, |s.workers|;
    assert s2.workers[w := Worker(p, Reading)] == s.workers + [Worker(p, Reading)];
    assert s2.procs[p].inbox + [w] == [w];
    assert s2.procs[p := s2.procs[p].(inbox := [w])] == s.procs[p := s.procs[p].(inbox := [w], serving := true)];
  }

  /** The exchange that the processes and goroutines can always go through when the process answers. */
  lemma {:induction false} ExchangeRun(s: Provider, line: Line) returns (evs: seq<Event>)
    requires Ready(s) && line.Data?
    ensures Legal(s, evs)
    ensures Received(s, Run(s, evs), Answer(Some(|s.workers|), line))
  {
    hide Apply, Enabled, Asked, Received;
    var w, p := |s.workers|, s.attached.value;
    evs := AskRun(s);
    var t := AnswerAsked(s, line);
    ThenStep(s, evs, HelperAnswer(p, line));
    evs := evs + [HelperAnswer(p, line)];
    ThenStep(s, evs, WorkerRead(w));
    evs := evs + [WorkerRead(w)];
  }

  lemma AnswerAsked(s: Provider, line: Line) returns (t: Provider)
    requires Ready(s) && line.Data?
    ensures Enabled(Asked(s), HelperAnswer(s.attached.value, line))
    ensures t == Apply(Asked(s), HelperAnswer(s.attached.value, line))
    ensures Enabled(t, WorkerRead(|s.workers|))
    ensures Received(s, Apply(t, WorkerRead(|s.workers|)), Answer(Some(|s.workers|), line))
  {
    var p, w := s.attached.value, |s.workers|;
    t := Apply(Asked(s), HelperAnswer(p, line));
    assert t.procs[p].outbox == [Answer(Some(w), line)];
  }

  /** From `s` to `t` only the exchange of one request happened: its answer is there to be received. */
  ghost predicate Received(s: Provider, t: Provider, a: Answer) {
    && s.pc.Requesting? && s.attached.Some? && s.attached.value < |s.procs| && s.procs[s.attached.value].alive
    && t.pc == Awaiting(s.pc.purpose, |s.workers|)
    && |t.workers| == |s.workers| + 1 && t.workers[|s.workers|].pc == Finished(Got(a))
    && t.attached == s.attached && t.processExit == s.processExit && t.exitChannels == s.exitChannels
    && t.started == s.started && t.cache == s.cache && t.results == s.results && t.sleepers == s.sleepers
    && |t.procs| == |s.procs|
    && var x := t.procs[s.attached.value];
       x.alive && x.serving && x.stdinOpen && x.inbox == [] && x.outbox == []
  }

  /** An exchange, and its answer received. */
  lemma {:induction false} AnsweredRun(s: Provider, line: Line) returns (evs: seq<Event>)
    requires Ready(s) && line.Data? && line.error == ""
    ensures Legal(s, evs)
    ensures AfterAnswer(s, Run(s, evs), Answer(Some(|s.workers|), line))
  {
    evs := ExchangeRun(s, line);
    var t := Run(s, evs);
    assert Enabled(t, Receive);
    ThenStep(s, evs, Receive);
    evs := evs + [Receive];
  }

  /** What a clean answer leads to: it becomes the cache; a refresh returns it; a restart goes on to refresh
      from its new process; and `Start` is done. */
  ghost predicate AfterAnswer(s: Provider, t: Provider, a: Answer) {
    && s.pc.Requesting? && t.cache == Some(a) && t.started == s.started && t.attached == s.attached
    && t.sleepers == s.sleepers
    && match s.pc.purpose
       case Refresh => t.pc.Free? && t.results == s.results + [Served(a)]
       case Initial(restart) =>
         t.results == s.results && if restart then Ready(t) && t.pc.purpose.Refresh? else t.pc.Free?
  }

  /** From every reachable state in which a caller has found the cache stale and the process alive, some run
      answers it: with any data free of errors, it returns and caches the answer to its own request. */
  lemma {:induction false} LiveHelperCanServe(s: Provider, line: Line) returns (evs: seq<Event>, a: Answer)
    requires Reachable(s) && Enabled(s, FoundAlive) && s.attached.value < |s.procs| && s.procs[s.attached.value].alive
    requires line.Data? && line.error == ""
    ensures Legal(s, evs) && a == Answer(Some(|s.workers|), line)
    ensures var s' := Run(s, evs);
            s'.pc.Free? && s'.results == s.results + [Served(a)] && s'.cache == Some(a) && s'.attached == s.attached
  {
    ReachableInv(s);
    StartsWith(s, FoundAlive);
    var s1 := Apply(s, FoundAlive);
    assert Ready(s1);
    hide Ready, Apply, Enabled, Inv;
    var rest := AnsweredRun(s1, line);
    RunConcat(s, [FoundAlive], rest);
    evs := [FoundAlive] + rest;
    a := Answer(Some(|s.workers|), line);
  }

  lemma StartsWith(s: Provider, ev: Event)
    requires Enabled(s, ev)
    ensures Legal(s, [ev]) && Run(s, [ev]) == Apply(s, ev)
  {
    assert Legal(s, []) && Run(s, []) == s;
    ThenStep(s, [], ev);
    assert [] + [ev] == [ev];
  }

  /** And when the process is dead, some run replaces it and answers the caller from the new one. */
  lemma {:induction false} DeadHelperCanBeReplaced(s: Provider, first: Line, line: Line)
    returns (evs: seq<Event>, a: Answer)
    requires Reachable(s) && Enabled(s, FoundDeadRestart)
    requires first.Data? && first.error == "" && line.Data? && line.error == ""
    ensures Legal(s, evs) && a.line == line
    ensures var s' := Run(s, evs);
            && s'.pc.Free? && s'.results == s.results + [Served(a)] && s'.cache == Some(a)
            && s'.attached == Some(|s.procs|)
  {
    hide Ready, Apply, Enabled, PcInv, ProcInv, AnswersInv, Legal, Run, Reachable;
    ReachableInv(s);
    var begin := SpawnRun(s);
    var rest;
    rest, a := ServeFromNew(Run(s, begin), first, line);
    RunConcat(s, begin, rest);
    evs := begin + rest;
  }

  /** A process just launched for a restart validates itself and answers the caller. */
  lemma {:induction false} ServeFromNew(s: Provider, first: Line, line: Line) returns (evs: seq<Event>, a: Answer)
    requires Ready(s) && s.pc.purpose == Initial(true)
    requires first.Data? && first.error == "" && line.Data? && line.error == ""
    ensures Legal(s, evs) && a.line == line
    ensures var t := Run(s, evs);
            && t.pc.Free? && t.results == s.results + [Served(a)] && t.cache == Some(a)
            && t.attached == s.attached && t.sleepers == s.sleepers
  {
    hide Ready, Apply, Enabled, Legal, Run;
    var validate := AnsweredRun(s, first);
    var t := Run(s, validate);
    var refresh := AnsweredRun(t, line);
    RunConcat(s, validate, refresh);
    evs := validate + refresh;
    a := Answer(Some(|t.workers|), line);
  }

  /** The dead process, if it is still attached, is detached, and a new one is launched. */
  lemma {:induction false} SpawnRun(s: Provider) returns (evs: seq<Event>)
    requires Inv(s) && Enabled(s, FoundDeadRestart)
    ensures Legal(s, evs)
    ensures var t := Run(s, evs);
            && Ready(t) && t.pc.purpose == Initial(true) && t.attached == Some(|s.procs|)
            && t.started == s.started && t.results == s.results
  {
    StartsWith(s, FoundDeadRestart);
    evs := [FoundDeadRestart];
    if s.attached.Some? {
      ThenStep(s, evs, StopDone);
      evs := evs + [StopDone];
    }
    ThenStep(s, evs, SpawnOk);
    evs := evs + [SpawnOk];
  }

  /** `Start` of a stopped provider can succeed. */
  lemma {:induction false} StartCanSucceed(s: Provider, first: Line) returns (evs: seq<Event>)
    requires Reachable(s) && Enabled(s, StartCall) && first.Data? && first.error == ""
    ensures Legal(s, evs)
    ensures var s' := Run(s, evs);
            s'.pc.Free? && s'.started && s'.attached == Some(|s.procs|) && s'.cache.Some? && s'.cache.value.line == first
  {
    ReachableInv(s);
    StartsWith(s, StartCall);
    ThenStep(s, [StartCall], SpawnOk);
    var begin := [StartCall] + [SpawnOk];
    var s1 := Run(s, begin);
    assert Ready(s1) && s1.started && s1.pc.purpose == Initial(false);
    var rest := AnsweredRun(s1, first);
    hide Ready, Apply, Enabled, Inv;
    RunConcat(s, begin, rest);
    evs := begin + rest;
  }

  /** `Stop` can always be carried through: the process exits, that is reported, and nothing is attached. */
  lemma {:induction false} StopCanComplete(s: Provider) returns (evs: seq<Event>)
    requires Reachable(s) && Enabled(s, StopCall)
    ensures Legal(s, evs)
    ensures var s' := Run(s, evs);
            s'.pc.Free? && !s'.started && s'.attached.None? && s'.results == s.results && |s'.procs| == |s.procs|
  {
    ReachableInv(s);
    StartsWith(s, StopCall);
    evs := [StopCall];
    if s.attached.Some? {
      var p, s1 := s.attached.value, Apply(s, StopCall);
      assert MonitorInv(s, p);
      var exit := ExitRun(s1, p);
      hide Apply, Enabled, Inv;
      RunConcat(s, evs, exit);
      evs := evs + exit;
      FinishesStop(s, s1, Run(s1, exit));
      ThenStep(s, evs, StopDone);
      evs := evs + [StopDone];
    }
  }

  lemma FinishesStop(s: Provider, s1: Provider, t: Provider)
    requires Enabled(s, StopCall) && s.attached.Some? && s.attached.value < |s.procs| && s1 == Apply(s, StopCall)
    requires OnlyExits(s1, t)
    ensures Enabled(t, StopDone)
    ensures var s' := Apply(t, StopDone);
            s'.pc.Free? && !s'.started && s'.attached.None? && s'.results == s.results && |s'.procs| == |s.procs|
  {
  }

  /** From `s` to `t` only the exit of the attached process happened and was reported. */
  ghost predicate OnlyExits(s: Provider, t: Provider) {
    && t == s.(procs := t.procs, exitChannels := t.exitChannels, monitors := t.monitors)
    && |t.procs| == |s.procs| && ExitSeen(t)
  }

  lemma ExitRun(s: Provider, p: nat) returns (evs: seq<Event>)
    requires p < |s.procs| == |s.monitors| == |s.exitChannels|
    requires MonitorInv(s, p) && s.processExit == Some(p)
    ensures Legal(s, evs) && OnlyExits(s, Run(s, evs))
  {
    evs := [];
    assert Legal(s, []) && Run(s, []) == s;
    if s.procs[p].alive {
      ThenStep(s, evs, HelperExit(p));
      evs := evs + [HelperExit(p)];
    }
    var s1 := Run(s, evs);
    if s1.monitors[p].pc.Waiting? {
      ThenStep(s, evs, MonitorReaps(p));
      evs := evs + [MonitorReaps(p)];
    }
    var s2 := Run(s, evs);
    if s2.monitors[p].pc.Reaped? {
      ThenStep(s, evs, MonitorCloses(p));
      evs := evs + [MonitorCloses(p)];
    }
  }

  /** A sleeper that is woken with the provider started can replace the process, whatever other callers have
      attached meanwhile, and answer its caller from the new one. */
  lemma {:induction false} SleeperCanServe(s: Provider, first: Line, line: Line) returns (evs: seq<Event>, a: Answer)
    requires Reachable(s) && Enabled(s, Wake) && s.started
    requires first.Data? && first.error == "" && line.Data? && line.error == ""
    ensures Legal(s, evs) && a.line == line
    ensures var s' := Run(s, evs);
            && s'.pc.Free? && s'.results == s.results + [Served(a)] && s'.cache == Some(a)
            && s'.attached == Some(|s.procs|) && s'.sleepers + 1 == s.sleepers
  {
    hide Ready, Apply, Enabled, PcInv, ProcInv, AnswersInv, Legal, Run, Reachable;
    ReachableInv(s);
    var begin := WakeRun(s);
    var rest;
    rest, a := ServeFromNew(Run(s, begin), first, line);
    RunConcat(s, begin, rest);
    evs := begin + rest;
  }

  lemma {:induction false} WakeRun(s: Provider) returns (evs: seq<Event>)
    requires Inv(s) && Enabled(s, Wake) && s.started
    ensures Legal(s, evs)
    ensures var t := Run(s, evs);
            && Ready(t) && t.pc.purpose == Initial(true) && t.attached == Some(|s.procs|)
            && t.results == s.results && t.sleepers + 1 == s.sleepers
  {
    StartsWith(s, Wake);
    evs := [Wake];
    var s1 := Apply(s, Wake);
    if s.attached.Some? {
      assert MonitorInv(s, s.attached.value);
      assert MonitorInv(s1, s.attached.value);
      var exit := ExitRun(s1, s.attached.value);
      RunConcat(s, evs, exit);
      evs := evs + exit;
      hide Legal, Run, ProcInv, PcInv, MonitorInv;
      ThenStep(s, evs, StopDone);
      evs := evs + [StopDone];
    }
    hide Legal, Run, ProcInv, PcInv, MonitorInv;
    ThenStep(s, evs, SpawnOk);
    evs := evs + [SpawnOk];
  }

  // ---------- the cache ----------

  /** A caller that comes while something is cached can be served that. */
  lemma {:induction false} CachedCanBeServed(s: Provider) returns (evs: seq<Event>)
    requires Reachable(s) && s.pc.Free? && s.started && s.cache.Some?
    ensures Legal(s, evs)
    ensures Run(s, evs) == s.(results := s.results + [Served(s.cache.value)])
  {
    StartsWith(s, GetCall);
    ThenStep(s, [GetCall], ServeCached);
    evs := [GetCall] + [ServeCached];
  }

  /** The answer was accepted as the `n`-th one or later. */
  ghost predicate AcceptedSince(s: Provider, n: nat, a: Answer) {
    exists i :: n <= i < |s.accepted| && s.accepted[i].answer == a
  }

  /** What is cached, and what was returned from the `m`-th result on, was accepted as the `n`-th or later. */
  ghost predicate NothingOlder(s: Provider, n: nat, m: nat) {
    && n <= |s.accepted| && m <= |s.results|
    && (s.cache.Some? ==> AcceptedSince(s, n, s.cache.value))
    && (forall i :: m <= i < |s.results| && s.results[i].Served? ==> AcceptedSince(s, n, s.results[i].answer))
  }

  lemma {:induction false} StepKeepsNothingOlder(s: Provider, ev: Event, n: nat, m: nat)
    requires PcInv(s) && Enabled(s, ev) && NothingOlder(s, n, m)
    ensures NothingOlder(Apply(s, ev), n, m)
  {
    var s' := Apply(s, ev);
    if s'.accepted == s.accepted {
      QuietOtherwise(s, ev);
    } else {
      AcceptsOnlyItsOwn(s, ev);
      assert s'.accepted[|s.accepted|].answer == s.workers[s.pc.w].pc.result.answer;
    }
    hide Apply, Enabled, PcInv;
    KeepsAcceptedSince(s, s', n, m);
  }

  lemma {:induction false} KeepsAcceptedSince(s: Provider, s': Provider, n: nat, m: nat)
    requires NothingOlder(s, n, m) && s.accepted <= s'.accepted && s.results <= s'.results
    requires s'.cache.None? || s'.cache == s.cache
          || (|s'.accepted| == |s.accepted| + 1 && s'.cache.value == s'.accepted[|s.accepted|].answer)
    requires forall i :: |s.results| <= i < |s'.results| && s'.results[i].Served? ==>
               s.cache == Some(s'.results[i].answer) || s'.cache == Some(s'.results[i].answer)
    ensures NothingOlder(s', n, m)
  {
    forall a | AcceptedSince(s, n, a)
      ensures AcceptedSince(s', n, a)
    {
      var i :| n <= i < |s.accepted| && s.accepted[i].answer == a;
      assert s'.accepted[i].answer == a;
    }
    if s'.cache.Some? && s'.cache != s.cache {
      assert s'.accepted[|s.accepted|].answer == s'.cache.value;
    }
  }

  /** After `Invalidate` no call returns anything that was accepted before, over any run. */
  lemma {:induction false} InvalidateForgets(s: Provider, evs: seq<Event>, i: nat)
    requires Reachable(s) && Enabled(s, Invalidate) && Legal(Apply(s, Invalidate), evs)
    ensures var s' := Run(Apply(s, Invalidate), evs);
            |s.results| <= i < |s'.results| && s'.results[i].Served? ==>
              AcceptedSince(s', |s.accepted|, s'.results[i].answer)
  {
    ReachableInv(s);
    StepKeepsInv(s, Invalidate);
    RunKeepsNothingOlder(Apply(s, Invalidate), evs, |s.accepted|, |s.results|);
  }

  lemma {:induction false} RunKeepsNothingOlder(s: Provider, evs: seq<Event>, n: nat, m: nat)
    requires Inv(s) && Legal(s, evs) && NothingOlder(s, n, m)
    ensures NothingOlder(Run(s, evs), n, m)
    decreases |evs|
  {
    if evs == [] {
    } else {
      StepKeepsInv(s, evs[0]);
      StepKeepsNothingOlder(s, evs[0], n, m);
      hide Apply, Enabled, Inv, NothingOlder;
      RunKeepsNothingOlder(Apply(s, evs[0]), evs[1..], n, m);
    }
  }
}
