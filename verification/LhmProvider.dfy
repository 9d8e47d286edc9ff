/** The provider's own code under its mutex. `Valid` is the monitor invariant: it holds whenever the
    mutex is free, so the sleep in the restart backoff, which releases the mutex, may be followed by
    anything that any number of other callers did, but finds `Valid` again. */
module LhmProvider {
  import opened Records

  /** A parsed line: which request to its process it answers, none for a startup error, and its content. */
  datatype Reply = Reply(number: Option<nat>, error: string, payload: int)

  /** `asked` numbers the request that this call wrote. */
  datatype GetResult = NotStarted | Cached(reply: Reply) | Refreshed(reply: Reply, asked: nat) | Error

  /** What a request meets: the pipe is closed; the process dies without a line; its line does not parse;
      it cannot open the hardware, which only a process that is not serving yet can meet; an answer; or
      nothing before the timeout or the cancellation. */
  datatype Reaction =
    | WriteFails
    | Dies
    | Garbles
    | OpenFails(message: string)
    | Answers(error: string, payload: int)
    | TimesOut
    | Cancelled

  predicate Clean(how: Reaction) {
    how.Answers? && how.error == ""
  }

  /** What a restart meets: whether it is woken from its sleep by the timer, and whether the provider is
      stopped by then; whether the process can be launched, and what the first request to it meets. */
  datatype Restart = Restart(woken: bool, stopped: bool, launches: bool, first: Reaction)

  /** A helper process and its two pipes: the requests it has not answered, by number, and the lines
      nobody has read, none for one that does not parse. `serving` says that it has opened the hardware;
      `asked` counts the requests. */
  class Helper {
    var exited: bool
    var serving: bool
    var asked: nat
    var pending: seq<nat>
    var lines: seq<Option<Reply>>

    constructor ()
      ensures !exited && !serving && asked == 0 && Balanced()
    {
      exited, serving, asked := false, false, 0;
      pending, lines := [], [];
    }

    /** No request is unanswered and no line unread. */
    ghost predicate Balanced()
      reads this
    {
      pending == [] && lines == []
    }

    /** Writing a request. */
    method Write(ok: bool)
      modifies this`asked, this`pending
      ensures asked == old(asked) + 1
      ensures pending == if ok then old(pending) + [old(asked)] else old(pending)
    {
      if ok {
        pending := pending + [asked];
      }
      asked := asked + 1;
    }

    /** What the process does with the oldest request. */
    method Act(how: Reaction)
      requires pending != [] && !how.WriteFails? && !how.TimesOut? && !how.Cancelled?
      modifies this`exited, this`serving, this`pending, this`lines
      ensures how.Answers? || how.Garbles? ==>
                && serving && exited == old(exited) && pending == old(pending)[1..]
                && lines == old(lines)
                     + [if how.Garbles? then None else Some(Reply(Some(old(pending)[0]), how.error, how.payload))]
      ensures how.OpenFails? && !old(serving) ==>
                exited && lines == old(lines) + [Some(Reply(None, "computer.Open() failed: " + how.message, 0))]
      ensures how.Dies? || (how.OpenFails? && old(serving)) ==> exited && lines == old(lines)
    {
      match how {
        case Answers(error, payload) =>
          serving := true;
          lines := lines + [Some(Reply(Some(pending[0]), error, payload))];
          pending := pending[1..];
        case Garbles =>
          serving := true;
          lines := lines + [None];
          pending := pending[1..];
        case OpenFails(message) =>
          if !serving {
            lines := lines + [Some(Reply(None, "computer.Open() failed: " + message, 0))];
          }
          exited := true;
        case Dies =>
          exited := true;
      }
    }

    /** The worker goroutine run to its end: it writes a request, waits for a line and parses it. An answer
        is the answer to the request just written, and then nothing is left in the pipes. */
    method Exchange(how: Reaction) returns (r: Option<Reply>)
      requires Balanced() && !how.TimesOut? && !how.Cancelled?
      modifies this
      ensures asked == old(asked) + 1 && (old(exited) ==> exited)
      ensures how.Answers? ==>
                && r == Some(Reply(Some(old(asked)), how.error, how.payload))
                && serving && Balanced() && exited == old(exited)
      ensures how.OpenFails? && !old(serving) ==> r.Some? && r.value.error != ""
      ensures !how.Answers? && !(how.OpenFails? && !old(serving)) ==> r == None
    {
      Write(!how.WriteFails?);
      if how.WriteFails? {
        return None;
      }
      Act(how);
      if lines == [] {
        return None;
      }
      r := lines[0];
      lines := lines[1..];
    }

    /** The worker goroutine abandoned somewhere on its way: what is in the pipes is unknown. */
    method Abandon()
      modifies this
      ensures old(exited) ==> exited
    {
      var written: bool, answered: bool := *, *;
      Write(written);
      if answered && pending != [] {
        Act(Garbles);
      }
    }

    /** Killing the process, which may fail, and draining the worker, which may take too long. */
    method KillAndDrain()
      modifies this`exited
      ensures old(exited) ==> exited
    {
      var killed: bool := *;
      if killed {
        exited := true;
      }
    }

    /** Waits for the exit channel, killing the process if it takes too long. */
    method AwaitExit()
      modifies this`exited
      ensures exited
    {
      exited := true;
    }
  }

  // ---------- the restart backoff ----------

  function Pow2(n: nat): nat {
    if n == 0 then 1 else 2 * Pow2(n - 1)
  }

  /** `1 << n` in a signed word of `bits` bits. */
  function ShiftedOne(bits: nat, n: nat): int {
    if n + 1 < bits then Pow2(n) else if n + 1 == bits then 0 - Pow2(n) else 0
  }

  /** The value a 64-bit signed word keeps of `x`. */
  function Wrap64(x: int): int {
    (x + 0x8000_0000_0000_0000) % 0x1_0000_0000_0000_0000 - 0x8000_0000_0000_0000
  }

  const NANOS_PER_SECOND := 1_000_000_000

  /** The delay after `failures` failures in a row, in nanoseconds, as the code computes it. */
  function Backoff(bits: nat, failures: nat): int {
    var seconds := ShiftedOne(bits, failures);
    Wrap64((if seconds > 60 then 60 else seconds) * NANOS_PER_SECOND)
  }

  lemma {:induction false} Pow2Grows(m: nat, n: nat)
    requires m <= n
    ensures Pow2(m) <= Pow2(n)
  {
    if m == n {
    } else {
      Pow2Grows(m, n - 1);
    }
  }

  lemma EightTimesDoubled(n: nat)
    ensures Pow2(n + 8) == 256 * Pow2(n)
  {
    assert Pow2(n + 2) == 2 * Pow2(n + 1);
    assert Pow2(n + 4) == 2 * Pow2(n + 3) && Pow2(n + 3) == 2 * Pow2(n + 2);
    assert Pow2(n + 6) == 2 * Pow2(n + 5) && Pow2(n + 5) == 2 * Pow2(n + 4);
    assert Pow2(n + 8) == 2 * Pow2(n + 7) && Pow2(n + 7) == 2 * Pow2(n + 6);
  }

  lemma WordEdges()
    ensures Pow2(6) == 64 && Pow2(31) == 0x8000_0000 && Pow2(63) == 0x8000_0000_0000_0000
  {
    assert Pow2(7) == 128;
    EightTimesDoubled(7);
    EightTimesDoubled(15);
    EightTimesDoubled(23);
    EightTimesDoubled(31);
    EightTimesDoubled(39);
    EightTimesDoubled(47);
    EightTimesDoubled(55);
  }

  /** The delay is the documented one, a power of two of at most sixty seconds, exactly as long as the
      failures number less than the word size minus one; beyond that there is no delay at all. */
  lemma {:induction false} BackoffIff(bits: nat, failures: nat)
    requires bits == 32 || bits == 64
    ensures Backoff(bits, failures) == Min(60, Pow2(failures)) * NANOS_PER_SECOND <==> failures + 1 < bits
    ensures failures + 1 >= bits ==> Backoff(bits, failures) <= 0
  {
    WordEdges();
    Pow2Grows(0, failures);
    hide Pow2, Wrap64;
    var seconds := ShiftedOne(bits, failures);
    if failures + 1 < bits {
      WrapKeeps(Min(60, seconds) * NANOS_PER_SECOND);
    } else if failures + 1 == bits == 64 {
      WrapOverflows();
    } else {
      WrapKeeps(seconds * NANOS_PER_SECOND);
    }
  }

  lemma WrapKeeps(x: int)
    requires -0x8000_0000_0000_0000 <= x < 0x8000_0000_0000_0000
    ensures Wrap64(x) == x
  {
  }

  lemma WrapOverflows()
    ensures Wrap64((0 - 0x8000_0000_0000_0000) * NANOS_PER_SECOND) == 0
  {
  }

  class Provider {
    var started: bool
    var cancelled: bool
    var cmd: Helper?
    var data: Option<Reply>
    var consecutiveFailures: nat
    var consecutiveTimeouts: nat
    /** The size of the machine's word. */
    const wordBits: nat
    ghost var spawned: set<Helper>

    /** What holds even while the mutex is held: every spawned process other than the attached one has
        exited, and the cache is free of errors. */
    ghost predicate Settled()
      reads this, spawned
    {
      && (forall h :: h in spawned && h != cmd ==> h.exited)
      && (cmd != null ==> cmd in spawned)
      && (data.Some? ==> data.value.error == "")
    }

    ghost predicate Valid()
      reads this, spawned
    {
      Settled() && (cmd != null ==> started && cmd.serving && cmd.Balanced())
    }

    constructor (wordBits: nat)
      ensures Valid() && !started && cmd == null && spawned == {} && this.wordBits == wordBits
    {
      this.wordBits := wordBits;
      started, cancelled := false, false;
      cmd, data, consecutiveFailures, consecutiveTimeouts := null, None, 0, 0;
      spawned := {};
    }

    /** Detaches the process, if any, once it has exited. */
    method StopProcess()
      requires Settled()
      modifies this`cmd, cmd
      ensures Settled() && cmd == null
      ensures old(cmd) != null ==> old(cmd).exited
    {
      if cmd == null {
        return;
      }
      cmd.AwaitExit();
      cmd := null;
    }

    /** Writes one request and reads its answer; gives up on a timeout or a cancellation by killing the
        process. An answer is returned and answers the request just written; the only other reply is the
        startup error of a process that was not serving yet. Only timeouts lengthen the streak of timeouts
        and only a reply ends it. */
    method DoRequest(how: Reaction) returns (r: Option<Reply>, asked: nat)
      requires Settled() && cmd != null && cmd.Balanced()
      modifies this`consecutiveTimeouts, cmd
      ensures Settled() && asked == old(cmd.asked)
      ensures how.Answers? ==>
                && r == Some(Reply(Some(asked), how.error, how.payload))
                && cmd.serving && cmd.Balanced() && cmd.exited == old(cmd.exited)
      ensures how.OpenFails? && !old(cmd.serving) ==> r.Some? && r.value.error != ""
      ensures !how.Answers? && !(how.OpenFails? && !old(cmd.serving)) ==> r == None
      ensures consecutiveTimeouts == if r.Some? then 0 else old(consecutiveTimeouts) + if how.TimesOut? then 1 else 0
    {
      asked := cmd.asked;
      if how.TimesOut? || how.Cancelled? {
        if how.TimesOut? {
          consecutiveTimeouts := consecutiveTimeouts + 1;
        }
        cmd.Abandon();
        cmd.KillAndDrain();
        return None, asked;
      }
      r := cmd.Exchange(how);
      if r.Some? {
        consecutiveTimeouts := 0;
      }
    }

    /** Spawns a process, if it can be launched, and validates it with a first request: succeeds exactly
        when that is answered without error. */
    method StartProcess(launches: bool, first: Reaction) returns (ok: bool)
      requires Settled() && cmd == null
      modifies this`cmd, this`data, this`consecutiveFailures, this`consecutiveTimeouts, this`spawned
      ensures Settled() && old(spawned) <= spawned && fresh(spawned - old(spawned))
      ensures ok <==> launches && Clean(first)
      ensures launches ==> |spawned - old(spawned)| == 1
      ensures !launches ==> spawned == old(spawned)
      ensures ok ==> cmd != null && fresh(cmd) && !cmd.exited && cmd.serving && cmd.Balanced()
                     && consecutiveFailures == consecutiveTimeouts == 0
      ensures ok ==> data == Some(Reply(Some(0), "", first.payload))
      ensures !ok ==> cmd == null && data == old(data) && consecutiveFailures == old(consecutiveFailures)
    {
      if !launches {
        return false;
      }
      cmd := new Helper();
      spawned := spawned + {cmd};
      assert spawned - old(spawned) == {cmd};
      consecutiveTimeouts := 0;
      var r, _ := DoRequest(first);
      if r.None? || r.value.error != "" {
        StopProcess();
        return false;
      }
      data := r;
      consecutiveFailures := 0;
      ok := true;
    }

    method Start(helperFound: bool, launches: bool, first: Reaction) returns (ok: bool)
      requires Valid()
      modifies this, spawned
      ensures Valid() && old(spawned) <= spawned && fresh(spawned - old(spawned))
      ensures ok <==> old(started) || (helperFound && launches && Clean(first))
      ensures ok <==> started
      ensures old(started) ==> cmd == old(cmd) && data == old(data) && cancelled == old(cancelled)
      ensures ok && !old(started) ==>
                !cancelled && cmd != null && fresh(cmd) && !cmd.exited && data == Some(Reply(Some(0), "", first.payload))
      ensures !ok ==> cmd == null && data == old(data) && cancelled == (old(cancelled) || helperFound)
    {
      if started {
        return true;
      }
      if !helperFound {
        return false;
      }
      started, cancelled := true, false;
      ok := StartProcess(launches, first);
      if !ok {
        started, cancelled := false, true;
      }
    }

    method Stop()
      requires Valid()
      modifies this`started, this`cancelled, this`cmd, spawned
      ensures Valid() && !started && cmd == null
      ensures forall h :: h in spawned ==> h.exited
      ensures cancelled == (old(cancelled) || old(started))
    {
      if !started {
        return;
      }
      started := false;
      StopProcess();
      cancelled := true;
    }

    method Invalidate()
      requires Valid()
      modifies this`data
      ensures Valid() && data == None
    {
      data := None;
    }

    /** The mutex is free for a while, and the provider is stopped by the end of it or not. Callers may rely
        on the contract only: the body is the behaviour in which at most one `Stop` came. */
    method SleepUnlocked(delay: int, stopped: bool)
      requires Valid() && started
      modifies this, spawned
      ensures Valid() && old(spawned) <= spawned && fresh(spawned - old(spawned))
      ensures started == !stopped
    {
      if stopped {
        Stop();
      }
    }

    /** A restart begun now succeeds: either no sleep is needed or the timer ends it with the provider still
        started, and the new process answers its first request without error. */
    ghost predicate RestartSucceeds(elapsed: int, e: Restart)
      reads this
    {
      && (elapsed < Backoff(wordBits, consecutiveFailures) ==> e.woken && !e.stopped)
      && e.launches && Clean(e.first)
    }

    /** `restartWithBackoff`, `elapsed` nanoseconds after the last attempt: it sleeps first exactly when
        the backoff has not passed yet. */
    method RestartWithBackoff(elapsed: int, e: Restart) returns (ok: bool, wait: bool)
      requires Valid() && started
      modifies this, spawned
      ensures old(spawned) <= spawned && fresh(spawned - old(spawned))
      ensures Valid()
      ensures wait <==> elapsed < Backoff(wordBits, old(consecutiveFailures))
      ensures ok <==> (wait ==> e.woken && !e.stopped) && e.launches && Clean(e.first)
      ensures ok ==> started && cmd != null && fresh(cmd) && !cmd.exited && consecutiveFailures == 0
                     && data == Some(Reply(Some(0), "", e.first.payload))
      ensures !ok && (wait ==> e.woken && !e.stopped) ==> started && cmd == null && consecutiveFailures > 0
      ensures !ok && !wait ==> consecutiveFailures == old(consecutiveFailures) + 1 && data == old(data)
    {
      var backoff := Backoff(wordBits, consecutiveFailures);
      wait := elapsed < backoff;
      if wait {
        SleepUnlocked(backoff - elapsed, e.stopped);
        if !e.woken || !started {
          return false, wait;
        }
      }
      StopProcess();
      ok := StartProcess(e.launches, e.first);
      if !ok {
        consecutiveFailures := consecutiveFailures + 1;
      }
    }

    /** `GetData`. `cacheFresh` says whether the cache, if any, is young enough; `elapsed` is the time since
        the last start attempt; `e` is what a restart meets and `how` what the request itself meets. With a
        fresh cache it returns that. Otherwise it makes its request, after a restart if the process is dead,
        and returns and caches the answer exactly when that is free of errors. */
    method GetData(cacheFresh: bool, elapsed: int, e: Restart, how: Reaction) returns (result: GetResult)
      requires Valid()
      modifies this, spawned
      ensures Valid() && old(spawned) <= spawned && fresh(spawned - old(spawned))
      ensures result.NotStarted? <==> !old(started)
      ensures result.Cached? <==> old(started) && old(data).Some? && cacheFresh
      ensures result.Cached? ==>
                && old(data) == Some(result.reply) && result.reply.error == ""
                && data == old(data) && cmd == old(cmd) && consecutiveFailures == old(consecutiveFailures)
      ensures var live := old(cmd) != null && !old(cmd.exited);
              result.Refreshed? <==> old(started) && !(old(data).Some? && cacheFresh) && Clean(how)
                                     && (live || old(RestartSucceeds(elapsed, e)))
      ensures result.Refreshed? ==>
                && result.reply == Reply(Some(result.asked), "", how.payload)
                && data == Some(result.reply) && started && cmd != null && consecutiveFailures == 0
      ensures result.Error? && old(cmd) != null && !old(cmd.exited) ==>
                && data == old(data)
                && (if how.Answers? then cmd == old(cmd) && consecutiveFailures == old(consecutiveFailures)
                    else cmd == null && consecutiveFailures == old(consecutiveFailures) + 1)
      ensures result.Error? && (old(cmd) == null || old(cmd.exited)) && old(RestartSucceeds(elapsed, e)) ==>
                && data == Some(Reply(Some(0), "", e.first.payload))
                && (if how.Answers? then cmd != null && consecutiveFailures == 0
                    else cmd == null && consecutiveFailures == 1)
    {
      if !started {
        return NotStarted;
      }
      if data.Some? && cacheFresh {
        return Cached(data.value);
      }
      if cmd == null || cmd.exited {
        var ok, _ := RestartWithBackoff(elapsed, e);
        if !ok {
          return Error;
        }
      }
      var r, asked := DoRequest(how);
      if r.None? {
        consecutiveFailures := consecutiveFailures + 1;
        StopProcess();
        return Error;
      }
      if r.value.error != "" {
        return Error;
      }
      data := r;
      consecutiveFailures := 0;
      result := Refreshed(r.value, asked);
    }
  }
}
