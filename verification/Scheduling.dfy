/** The scheduler's own code. `Valid` holds whenever its mutex is free; waiting on the wait group, with
    the mutex free, lets collector goroutines exit and another call flip `running`. */
module Scheduling {
  import SchedulerProtocol

  class Context {
    var done: bool

    constructor (done: bool)
      ensures this.done == done
    {
      this.done := done;
    }
  }

  class Goroutine {
    const name: string
    const ctx: Context
    var alive: bool

    constructor (name: string, ctx: Context)
      ensures this.name == name && this.ctx == ctx && alive
    {
      this.name, this.ctx, this.alive := name, ctx, true;
    }
  }

  class Scheduler {
    var running: bool
    var cancel: Context?
    var parent: Context?
    var workers: set<Goroutine>

    ghost function Contexts(): set<object>
      reads this, workers
    {
      (set w | w in workers :: w.ctx as object) + (if cancel == null then {} else {cancel as object})
    }

    ghost predicate NoneAlive()
      reads this, workers
    {
      forall w :: w in workers ==> !w.alive
    }

    /** Some live goroutine serves collector `n`. */
    ghost predicate Serves(n: string)
      reads this, workers
    {
      exists w :: w in workers && w.alive && w.name == n
    }

    /** Two live goroutines never serve the same collector; every live one can be reached by a
        cancellation; and once `running` is false every live one has been told to stop. */
    ghost predicate Valid()
      reads this, workers, Contexts()
    {
      && (running ==> cancel != null && parent != null)
      && (forall w :: w in workers && w.alive ==> w.ctx.done || (running && w.ctx == cancel))
      && (forall v, w :: v in workers && w in workers && v.alive && w.alive && v.name == w.name ==> v == w)
    }

    constructor ()
      ensures Valid() && !running && NoneAlive()
    {
      running, cancel, parent := false, null, null;
      workers := {};
    }

    /** Starts one goroutine per enabled collector under the stored context. */
    method SpawnAll(enabled: seq<string>)
      requires SchedulerProtocol.Distinct(enabled) && NoneAlive() && running && cancel != null && parent != null
      modifies this`workers
      ensures Valid() && old(workers) <= workers && fresh(workers - old(workers))
      ensures forall w :: w in workers && w.alive ==> w.name in enabled && w.ctx == cancel
      ensures forall n :: n in enabled ==> Serves(n)
    {
      for i := 0 to |enabled|
        invariant old(workers) <= workers && fresh(workers - old(workers))
        invariant forall w :: w in workers && w.alive ==> w.name in enabled[..i] && w.ctx == cancel
        invariant forall n :: n in enabled[..i] ==> Serves(n)
        invariant forall v, w :: v in workers && w in workers && v.alive && w.alive && v.name == w.name ==> v == w
      {
        assert enabled[i] !in enabled[..i];
        assert enabled[..i + 1] == enabled[..i] + [enabled[i]];
        ghost var before := workers;
        var w := new Goroutine(enabled[i], cancel);
        workers := workers + {w};
        forall n | n in enabled[..i + 1]
          ensures Serves(n)
        {
          if n == enabled[i] {
            assert w in workers && w.alive && w.name == n;
          } else {
            var x :| x in before && x.alive && x.name == n;
            assert x in workers && x.alive && x.name == n;
          }
        }
      }
      assert enabled[..|enabled|] == enabled;
    }

    /** Waiting on the wait group with the mutex free: every live goroutine has been told to stop and
        exits; `stopped` tells whether a `Stop` flips `running` meanwhile. None can spawn. */
    method WaitForWorkers(stopped: bool)
      requires Valid() && cancel != null && cancel.done
      modifies this`running, workers
      ensures Valid() && NoneAlive()
      ensures running == (old(running) && !stopped)
    {
      forall w | w in workers {
        w.alive := false;
      }
      if stopped {
        running := false;
      }
    }

    method Start(ctx: Context, enabled: seq<string>)
      requires Valid() && SchedulerProtocol.Distinct(enabled) && (running || NoneAlive())
      modifies this
      ensures Valid() && running
      ensures old(running) ==> workers == old(workers) && cancel == old(cancel)
      ensures !old(running) ==>
                && parent == ctx && fresh(cancel) && cancel.done == ctx.done
                && (forall w :: w in workers && w.alive ==> w.name in enabled && w.ctx == cancel)
                && (forall n :: n in enabled ==> Serves(n))
    {
      if running {
        return;
      }
      running := true;
      parent := ctx;
      cancel := new Context(ctx.done);
      SpawnAll(enabled);
    }

    /** The call that flips `running` returns with no goroutine alive. */
    method Stop()
      requires Valid()
      modifies this`running, workers, cancel
      ensures Valid() && !running && workers == old(workers)
      ensures old(running) ==> NoneAlive() && cancel == old(cancel) && cancel.done
    {
      if !running {
        return;
      }
      running := false;
      cancel.done := true;
      WaitForWorkers(false);
    }

    /** Replaces every goroutine by one per collector enabled now, unless a `Stop` comes in between, which
        `stopped` tells. Nothing else stops the scheduler. */
    method Reconfigure(enabled: seq<string>, stopped: bool)
      requires Valid() && SchedulerProtocol.Distinct(enabled)
      modifies this, workers, cancel
      ensures Valid()
      ensures running <==> old(running) && !stopped
      ensures !old(running) ==> workers == old(workers) && cancel == old(cancel)
      ensures parent == old(parent) && (old(running) ==> old(cancel).done)
      ensures old(running) && !running ==> NoneAlive()
      ensures running ==>
                && fresh(cancel) && cancel.done == parent.done
                && (forall w :: w in workers && w.alive ==> w.name in enabled && w.ctx == cancel)
                && (forall n :: n in enabled ==> Serves(n))
    {
      if !running {
        return;
      }
      cancel.done := true;
      WaitForWorkers(stopped);
      if !running {
        return;
      }
      cancel := new Context(parent.done);
      SpawnAll(enabled);
    }
  }
}
