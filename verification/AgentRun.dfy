/** The same run with its counters, sets and loop positions updated in place
    (src/agent_augury/core/session.py:1260-1437, 1619-1670). */
module AgentRuns {
  import opened Tables
  import opened RunLoop

  class AgentRun {
    const cfg: Config
    var loops: seq<Loop>
    var running: set<Id>
    var parked: set<Id>
    var total: nat
    var deadlock: bool
    var env: Env

    function View(): Sys
      reads this
    {
      Sys(loops, running, parked, total, deadlock, env)
    }

    constructor (cfg: Config, env: Env)
      ensures View() == Begin(env) && this.cfg == cfg
    {
      this.cfg, this.env := cfg, env;
      loops, running, parked, total, deadlock := [], {}, {}, 0, false;
    }

    method CountLive() returns (live: nat)
      ensures live == LiveCount(loops)
    {
      live := 0;
      var i := 0;
      while i < |loops|
        invariant 0 <= i <= |loops| && live == LiveCount(loops[..i])
      {
        assert loops[..i + 1][..i] == loops[..i];
        if !loops[i].loc.Done? { live := live + 1; }
        i := i + 1;
      }
      assert loops[..i] == loops;
    }

    method InboxesEmpty() returns (empty: bool)
      ensures empty <==> AllEmpty(cfg, env)
    {
      var left := cfg.agents;
      while left != {}
        invariant left <= cfg.agents && forall a :: a in cfg.agents - left ==> Size(env, a) == 0
        decreases left
      {
        var a :| a in left;
        if Size(env, a) != 0 { return false; }
        left := left - {a};
      }
      return true;
    }

    method MoveTo(i: nat, loc: Loc)
      requires i < |loops|
      modifies this
      ensures View() == Go(old(View()), i, loc)
    {
      var l := loops[i].(loc := loc);
      loops := loops[i := l];
      if loc.Done? { running := running - {l.agent}; }
      parked := if loc.Parked? then parked + {l.agent} else parked - {l.agent};
    }

    /** The live loops of an agent. */
    function LoopsOf(a: Id): nat
      reads this
    {
      LiveLoops(loops, a)
    }

    /** An agent that has a live loop gets no second one; one that has none gets one. */
    method Spawn(a: Id)
      modifies this
      ensures View() == RunLoop.Spawn(old(View()), a)
      ensures Inv(cfg, old(View())) && a in cfg.agents ==> Inv(cfg, View()) && LoopsOf(a) == 1
    {
      SpawnedOnce(cfg, View(), a);
      if a in running { return; }
      running := running + {a};
      loops := loops + [Loop(a, Top, 0, 0)];
    }

    method Poll(i: nat)
      requires i < |loops| && loops[i].loc.Parked?
      modifies this
      ensures View() == RunLoop.Poll(cfg, old(View()), i)
    {
      if env.interrupt || env.closed { MoveTo(i, Done); return; }
      if deadlock { MoveTo(i, Done); return; }
      if cfg.maxSteps > 0 && total >= cfg.maxSteps { MoveTo(i, Done); return; }
      if Size(env, loops[i].agent) > 0 { MoveTo(i, Top); return; }
      if env.proto.Some? {
        if env.proto.value.phase != loops[i].loc.phase0 { MoveTo(i, Top); return; }
        if env.proto.value.open && !loops[i].loc.open0 { MoveTo(i, Top); return; }
        if !Waiting(env.proto) { MoveTo(i, Top); return; }
      }
      var live := CountLive();
      var empty := InboxesEmpty();
      if !env.interact && live > 0 && |parked| >= live && empty {
        deadlock := true;
        MoveTo(i, Done);
      }
    }

    method Park(i: nat)
      requires i < |loops|
      modifies this
      ensures View() == RunLoop.Park(cfg, old(View()), i)
    {
      var phase0, open0 := 0, false;
      if env.proto.Some? { phase0, open0 := env.proto.value.phase, env.proto.value.open; }
      MoveTo(i, Parked(phase0, open0));
      Poll(i);
    }

    method TopOfLoop(i: nat, signalled: bool)
      requires i < |loops|
      modifies this
      ensures View() == Turn(cfg, old(View()), i, signalled)
    {
      if env.interrupt { MoveTo(i, Done); return; }
      if cfg.maxSteps > 0 && total >= cfg.maxSteps { MoveTo(i, Done); return; }
      if !cfg.spent && env.proto.Some? && env.proto.value.kind.Over? { MoveTo(i, Done); return; }
      var done := Waiting(env.proto) && signalled;
      if done && Size(env, loops[i].agent) == 0 { Park(i); return; }
      MoveTo(i, Stepping);
    }

    method SetCounts(i: nat, idle: nat, retries: nat)
      requires i < |loops|
      modifies this`loops
      ensures loops == old(loops)[i := old(loops)[i].(idle := idle, retries := retries)]
    {
      loops := loops[i := loops[i].(idle := idle, retries := retries)];
    }

    method AfterStep(i: nat, toolCalls: bool, drained: bool, text: bool, nudged: bool)
      requires i < |loops| && loops[i].loc.Stepping? && loops[i].agent !in parked
      modifies this
      ensures View() == Returned(cfg, old(View()), i, Stepped(toolCalls, drained, text), nudged)
    {
      hide RunLoop.Park;
      var l := loops[i];
      SetCounts(i, l.idle, 0);
      total := total + 1;
      if toolCalls || Size(env, l.agent) > 0 {
        SetCounts(i, 0, 0);
        MoveTo(i, Top);
        return;
      }
      if drained { SetCounts(i, 0, 0); }
      if Waiting(env.proto) {
        if nudged { MoveTo(i, Top); return; }
        assert View() == Move(old(View()).(total := old(total) + 1), i, loops[i]);
        Park(i);
        return;
      }
      if !text { MoveTo(i, Done); return; }
      SetCounts(i, loops[i].idle + 1, 0);
      MoveTo(i, if loops[i].idle >= 2 then Done else Top);
    }

    method AfterCall(i: nat, out: Outcome, nudged: bool)
      requires i < |loops| && loops[i].loc.Stepping? && loops[i].agent !in parked
      modifies this
      ensures View() == Returned(cfg, old(View()), i, out, nudged)
    {
      hide RunLoop.Park;
      var l := loops[i];
      match out {
        case Ended => MoveTo(i, Done);
        case Failed(retryable) =>
          if !retryable || l.retries >= cfg.maxRetries { MoveTo(i, Done); return; }
          SetCounts(i, l.idle, l.retries + 1);
          MoveTo(i, Backoff);
        case Skipped =>
          SetCounts(i, l.idle, 0);
          MoveTo(i, Top);
        case Stepped(toolCalls, drained, text) => AfterStep(i, toolCalls, drained, text, nudged);
      }
    }
  }
}
