/** The concurrent agent loops of one run: step budget, parking and the deadlock detector
    (src/agent_augury/core/session.py:1257-1508, 1600-1670).

    Each step below is what one coroutine does between two awaits. What a model call
    returns and does, and what people do from outside, are inputs. */
module RunLoop {
  import opened Tables

  type Id = string

  /** What the protocol's current phase is to a waiting agent. */
  datatype Kind = Explore | Over | Gated | Ungated

  /** `open`: there is a gate for the phase and it is open. */
  datatype Proto = Proto(phase: int, kind: Kind, open: bool)

  datatype Env = Env(inbox: map<Id, nat>, proto: Option<Proto>, interact: bool, interrupt: bool, closed: bool)

  /** Where a loop is: at the top, inside its model call, waiting to retry, parked since a phase
      and a gate state, or ended. */
  datatype Loc = Top | Stepping | Backoff | Parked(phase0: int, open0: bool) | Done

  datatype Loop = Loop(agent: Id, loc: Loc, idle: nat, retries: nat)

  /** `agents`: the session's roster and bench. `maxSteps == 0`: no budget. */
  datatype Config = Config(agents: set<Id>, maxSteps: nat, maxRetries: nat, spent: bool)

  datatype Sys = Sys(loops: seq<Loop>, running: set<Id>, parked: set<Id>, total: nat, deadlock: bool, env: Env)

  function Begin(env: Env): Sys {
    Sys([], {}, {}, 0, false, env)
  }

  function Size(env: Env, a: Id): nat {
    if a in env.inbox then env.inbox[a] else 0
  }

  /** `_is_gate_waiting`. */
  predicate Waiting(p: Option<Proto>) {
    p.Some? && (p.value.kind.Explore? || (p.value.kind.Gated? && !p.value.open))
  }

  predicate Spent(cfg: Config, s: Sys) {
    cfg.maxSteps > 0 && s.total >= cfg.maxSteps
  }

  predicate Live(l: Loop) {
    !l.loc.Done?
  }

  /** `sum(1 for t in self._agent_tasks if not t.done())`. */
  function LiveCount(loops: seq<Loop>): nat
    decreases |loops|
  {
    if loops == [] then 0 else LiveCount(loops[..|loops| - 1]) + if Live(loops[|loops| - 1]) then 1 else 0
  }

  predicate AllEmpty(cfg: Config, env: Env) {
    forall a :: a in cfg.agents ==> Size(env, a) == 0
  }

  /** A loop moves; `parked` and `running` follow. */
  function Move(s: Sys, i: nat, l: Loop): Sys
    requires i < |s.loops|
  {
    s.(loops := s.loops[i := l],
       running := if l.loc.Done? then s.running - {l.agent} else s.running,
       parked := if l.loc.Parked? then s.parked + {l.agent} else s.parked - {l.agent})
  }

  function Go(s: Sys, i: nat, loc: Loc): Sys
    requires i < |s.loops|
  {
    Move(s, i, s.loops[i].(loc := loc))
  }

  /** The phase or the gate moved since the loop parked, or waiting is over. */
  predicate Stirred(p: Option<Proto>, loc: Loc)
    requires loc.Parked?
  {
    p.Some? && (p.value.phase != loc.phase0 || (p.value.open && !loc.open0) || !Waiting(p))
  }

  /** One round of a parked loop's poll. */
  function Poll(cfg: Config, s: Sys, i: nat): Sys
    requires i < |s.loops| && s.loops[i].loc.Parked?
  {
    if s.env.interrupt || s.env.closed || s.deadlock || Spent(cfg, s) then Go(s, i, Done)
    else if Size(s.env, s.loops[i].agent) > 0 || Stirred(s.env.proto, s.loops[i].loc) then Go(s, i, Top)
    else if !s.env.interact && LiveCount(s.loops) > 0 && |s.parked| >= LiveCount(s.loops) && AllEmpty(cfg, s.env) then
      Go(s.(deadlock := true), i, Done)
    else s
  }

  /** Entering `_wait_for_gate_wakeup`: park, and poll at once. */
  function Park(cfg: Config, s: Sys, i: nat): Sys
    requires i < |s.loops|
  {
    var p := s.env.proto;
    Poll(cfg, Go(s, i, if p.Some? then Parked(p.value.phase, p.value.open) else Parked(0, false)), i)
  }

  /** From the top of the loop to the next await. `signalled`: the protocol has counted this agent. */
  function Turn(cfg: Config, s: Sys, i: nat, signalled: bool): Sys
    requires i < |s.loops|
  {
    if s.env.interrupt || Spent(cfg, s) then Go(s, i, Done)
    else if !cfg.spent && s.env.proto.Some? && s.env.proto.value.kind.Over? then Go(s, i, Done)
    else if Waiting(s.env.proto) && signalled && Size(s.env, s.loops[i].agent) == 0 then Park(cfg, s, i)
    else Go(s, i, Stepping)
  }

  datatype Outcome =
    | Ended
    | Failed(retryable: bool)
    | Skipped
    | Stepped(toolCalls: bool, drained: bool, text: bool)

  /** From the model call's return to the next await. `nudged`: a reminder was injected. */
  function Returned(cfg: Config, s: Sys, i: nat, out: Outcome, nudged: bool): Sys
    requires i < |s.loops|
  {
    var l := s.loops[i];
    match out
    case Ended => Go(s, i, Done)
    case Failed(retryable) =>
      if !retryable || l.retries >= cfg.maxRetries then Go(s, i, Done)
      else Move(s, i, l.(loc := Backoff, retries := l.retries + 1))
    case Skipped => Move(s, i, l.(loc := Top, retries := 0))
    case Stepped(toolCalls, drained, text) =>
      var l1 := l.(retries := 0);
      var s1 := s.(total := s.total + 1);
      if toolCalls || Size(s.env, l.agent) > 0 then Move(s1, i, l1.(loc := Top, idle := 0))
      else
        var l2 := if drained then l1.(idle := 0) else l1;
        if Waiting(s.env.proto) then
          if nudged then Move(s1, i, l2.(loc := Top)) else Park(cfg, Move(s1, i, l2), i)
        else if !text then Move(s1, i, l2.(loc := Done))
        else if l2.idle + 1 >= 2 then Move(s1, i, l2.(loc := Done, idle := l2.idle + 1))
        else Move(s1, i, l2.(loc := Top, idle := l2.idle + 1))
  }

  /** `_spawn`. */
  function Spawn(s: Sys, a: Id): Sys {
    if a in s.running then s
    else s.(loops := s.loops + [Loop(a, Top, 0, 0)], running := s.running + {a})
  }

  datatype Event =
    | Turns(i: nat, signalled: bool)
    | Returns(i: nat, out: Outcome, nudged: bool)
    | Retries(i: nat)
    | Polls(i: nat)
    | Acts(i: nat, inbox: map<Id, nat>, proto: Option<Proto>)
    | Joins(i: nat, agent: Id)
    | Starts(agent: Id)
    | Outside(env: Env)

  predicate At(s: Sys, i: nat, loc: Loc) {
    i < |s.loops| && s.loops[i].loc == loc
  }

  predicate IsParked(s: Sys, i: nat) {
    i < |s.loops| && s.loops[i].loc.Parked?
  }

  /** `Acts`: the effect of a model call under way on inboxes and protocol. `Joins`: the roster it
      thereby extends. `Starts`: a roster change or the run's own start. */
  function Step(cfg: Config, s: Sys, e: Event): Sys {
    match e
    case Turns(i, signalled) => if At(s, i, Top) then Turn(cfg, s, i, signalled) else s
    case Returns(i, out, nudged) => if At(s, i, Stepping) then Returned(cfg, s, i, out, nudged) else s
    case Retries(i) => if At(s, i, Backoff) then Go(s, i, if s.env.interrupt then Done else Top) else s
    case Polls(i) => if IsParked(s, i) then Poll(cfg, s, i) else s
    case Acts(i, inbox, proto) => if At(s, i, Stepping) then s.(env := s.env.(inbox := inbox, proto := proto)) else s
    case Joins(i, a) => if At(s, i, Stepping) && a in cfg.agents then Spawn(s, a) else s
    case Starts(a) => if a in cfg.agents then Spawn(s, a) else s
    case Outside(env) => s.(env := env)
  }

  function Run(cfg: Config, s: Sys, es: seq<Event>): Sys
    decreases |es|
  {
    if es == [] then s else Step(cfg, Run(cfg, s, es[..|es| - 1]), es[|es| - 1])
  }

  // ---- The invariant ------------------------------------------------------------------------------

  ghost predicate OneEach(loops: seq<Loop>) {
    forall i, j :: 0 <= i < j < |loops| && Live(loops[i]) && Live(loops[j]) ==> loops[i].agent != loops[j].agent
  }

  ghost predicate Tracked(s: Sys) {
    && (forall a :: a in s.running <==> exists i :: 0 <= i < |s.loops| && Live(s.loops[i]) && s.loops[i].agent == a)
    && (forall a :: a in s.parked <==>
          exists i :: 0 <= i < |s.loops| && s.loops[i].loc.Parked? && s.loops[i].agent == a)
  }

  ghost predicate Modest(cfg: Config, s: Sys) {
    forall i :: 0 <= i < |s.loops| ==>
      && s.loops[i].agent in cfg.agents && s.loops[i].retries <= cfg.maxRetries
      && (Live(s.loops[i]) ==> s.loops[i].idle <= 1)
  }

  ghost predicate Inv(cfg: Config, s: Sys) {
    OneEach(s.loops) && Tracked(s) && Modest(cfg, s)
  }

  /** A loop of the same agent in another place that fits. */
  lemma MoveKeeps(cfg: Config, s: Sys, i: nat, l: Loop)
    requires Inv(cfg, s) && i < |s.loops| && Live(s.loops[i])
    requires l.agent == s.loops[i].agent && l.retries <= cfg.maxRetries && (Live(l) ==> l.idle <= 1)
    ensures Inv(cfg, Move(s, i, l))
  {
    var s' := Move(s, i, l);
    assert forall j :: 0 <= j < |s.loops| && j != i ==> s'.loops[j] == s.loops[j];
    assert s'.loops[i] == l;
    forall a | a in s'.running ensures exists j :: 0 <= j < |s'.loops| && Live(s'.loops[j]) && s'.loops[j].agent == a {
      var j :| 0 <= j < |s.loops| && Live(s.loops[j]) && s.loops[j].agent == a;
      assert s'.loops[j].agent == a && Live(s'.loops[j]);
    }
    forall a | a in s'.parked
      ensures exists j :: 0 <= j < |s'.loops| && s'.loops[j].loc.Parked? && s'.loops[j].agent == a
    {
      if a == l.agent { assert s'.loops[i].loc.Parked?; }
      else {
        var j :| 0 <= j < |s.loops| && s.loops[j].loc.Parked? && s.loops[j].agent == a;
        assert s'.loops[j] == s.loops[j];
      }
    }
  }

  lemma GoKeeps(cfg: Config, s: Sys, i: nat, loc: Loc)
    requires Inv(cfg, s) && i < |s.loops| && Live(s.loops[i])
    ensures Inv(cfg, Go(s, i, loc))
  {
    MoveKeeps(cfg, s, i, s.loops[i].(loc := loc));
  }

  lemma PollKeeps(cfg: Config, s: Sys, i: nat)
    requires Inv(cfg, s) && IsParked(s, i)
    ensures Inv(cfg, Poll(cfg, s, i))
  {
    GoKeeps(cfg, s, i, Done);
    GoKeeps(cfg, s, i, Top);
    GoKeeps(cfg, s.(deadlock := true), i, Done);
  }

  lemma ParkKeeps(cfg: Config, s: Sys, i: nat)
    requires Inv(cfg, s) && i < |s.loops| && Live(s.loops[i])
    ensures Inv(cfg, Park(cfg, s, i))
  {
    hide Inv, Poll;
    var p := s.env.proto;
    var loc := if p.Some? then Parked(p.value.phase, p.value.open) else Parked(0, false);
    GoKeeps(cfg, s, i, loc);
    PollKeeps(cfg, Go(s, i, loc), i);
  }

  lemma TurnKeeps(cfg: Config, s: Sys, i: nat, signalled: bool)
    requires Inv(cfg, s) && At(s, i, Top)
    ensures Inv(cfg, Turn(cfg, s, i, signalled))
  {
    hide Inv, Park, Go;
    GoKeeps(cfg, s, i, Done);
    GoKeeps(cfg, s, i, Stepping);
    ParkKeeps(cfg, s, i);
  }

  lemma StepCounted(cfg: Config, s: Sys)
    requires Inv(cfg, s)
    ensures Inv(cfg, s.(total := s.total + 1))
  {}

  lemma LoopFits(cfg: Config, s: Sys, i: nat)
    requires Inv(cfg, s) && i < |s.loops| && Live(s.loops[i])
    ensures s.loops[i].retries <= cfg.maxRetries && s.loops[i].idle <= 1
  {}

  lemma ReturnedKeeps(cfg: Config, s: Sys, i: nat, out: Outcome, nudged: bool)
    requires Inv(cfg, s) && At(s, i, Stepping)
    ensures Inv(cfg, Returned(cfg, s, i, out, nudged))
  {
    hide Inv, Park, Move;
    var l := s.loops[i];
    LoopFits(cfg, s, i);
    match out {
      case Ended => GoKeeps(cfg, s, i, Done);
      case Failed(retryable) =>
        if !retryable || l.retries >= cfg.maxRetries { GoKeeps(cfg, s, i, Done); }
        else { MoveKeeps(cfg, s, i, l.(loc := Backoff, retries := l.retries + 1)); }
      case Skipped => MoveKeeps(cfg, s, i, l.(loc := Top, retries := 0));
      case Stepped(toolCalls, drained, text) =>
        StepCounted(cfg, s);
        SteppedKeeps(cfg, s.(total := s.total + 1), s, i, toolCalls, drained, text, nudged);
    }
  }

  lemma SteppedKeeps(cfg: Config, s1: Sys, s: Sys, i: nat, toolCalls: bool, drained: bool, text: bool, nudged: bool)
    requires Inv(cfg, s1) && At(s, i, Stepping) && s1 == s.(total := s.total + 1)
    ensures Inv(cfg, Returned(cfg, s, i, Stepped(toolCalls, drained, text), nudged))
  {
    hide Inv, Park, Move;
    LoopFits(cfg, s1, i);
    var l1 := s.loops[i].(retries := 0);
    if toolCalls || Size(s.env, l1.agent) > 0 {
      MoveKeeps(cfg, s1, i, l1.(loc := Top, idle := 0));
    } else {
      var l2 := if drained then l1.(idle := 0) else l1;
      if Waiting(s.env.proto) {
        if nudged { MoveKeeps(cfg, s1, i, l2.(loc := Top)); }
        else {
          MoveKeeps(cfg, s1, i, l2);
          MovedTo(s1, i, l2);
          ParkKeeps(cfg, Move(s1, i, l2), i);
        }
      } else if !text { MoveKeeps(cfg, s1, i, l2.(loc := Done)); }
      else if l2.idle + 1 >= 2 { MoveKeeps(cfg, s1, i, l2.(loc := Done, idle := l2.idle + 1)); }
      else { MoveKeeps(cfg, s1, i, l2.(loc := Top, idle := l2.idle + 1)); }
    }
  }

  lemma MovedTo(s: Sys, i: nat, l: Loop)
    requires i < |s.loops|
    ensures |Move(s, i, l).loops| == |s.loops| && Move(s, i, l).loops[i] == l
    ensures forall j :: 0 <= j < |s.loops| && j != i ==> Move(s, i, l).loops[j] == s.loops[j]
    ensures Move(s, i, l).env == s.env && Move(s, i, l).total == s.total && Move(s, i, l).deadlock == s.deadlock
  {}

  lemma SpawnKeeps(cfg: Config, s: Sys, a: Id)
    requires Inv(cfg, s) && a in cfg.agents
    ensures Inv(cfg, Spawn(s, a))
  {
    var s' := Spawn(s, a);
    if a !in s.running {
      assert forall j :: 0 <= j < |s.loops| ==> s'.loops[j] == s.loops[j];
      assert s'.loops[|s.loops|].agent == a;
      forall b | b in s.running ensures exists j :: 0 <= j < |s'.loops| && Live(s'.loops[j]) && s'.loops[j].agent == b {
        var j :| 0 <= j < |s.loops| && Live(s.loops[j]) && s.loops[j].agent == b;
        assert s'.loops[j].agent == b;
      }
      forall b | b in s.parked
        ensures exists j :: 0 <= j < |s'.loops| && s'.loops[j].loc.Parked? && s'.loops[j].agent == b
      {
        var j :| 0 <= j < |s.loops| && s.loops[j].loc.Parked? && s.loops[j].agent == b;
        assert s'.loops[j] == s.loops[j];
      }
    }
  }

  /** How many live loops an agent has. */
  function LiveLoops(loops: seq<Loop>, a: Id): nat
    decreases |loops|
  {
    if loops == [] then 0
    else LiveLoops(loops[..|loops| - 1], a) + if Live(loops[|loops| - 1]) && loops[|loops| - 1].agent == a then 1 else 0
  }

  lemma {:induction false} LiveLoopsAre(loops: seq<Loop>, a: Id)
    requires OneEach(loops)
    ensures LiveLoops(loops, a)
            == if exists i :: 0 <= i < |loops| && Live(loops[i]) && loops[i].agent == a then 1 else 0
    decreases |loops|
  {
    if loops != [] {
      var front, n := loops[..|loops| - 1], |loops| - 1;
      assert forall i :: 0 <= i < n ==> front[i] == loops[i];
      LiveLoopsAre(front, a);
      if Live(loops[n]) && loops[n].agent == a {
        forall i | 0 <= i < n && Live(front[i]) ensures front[i].agent != a { assert loops[i] == front[i]; }
      } else if i :| 0 <= i < |loops| && Live(loops[i]) && loops[i].agent == a {
        assert front[i] == loops[i];
      }
    }
  }

  /** Starting an agent leaves it with exactly one live loop, and every other agent with as many as before. */
  lemma SpawnedOnce(cfg: Config, s: Sys, a: Id)
    ensures Inv(cfg, s) && a in cfg.agents ==>
              && Inv(cfg, Spawn(s, a)) && LiveLoops(Spawn(s, a).loops, a) == 1
              && forall b :: b != a ==> LiveLoops(Spawn(s, a).loops, b) == LiveLoops(s.loops, b)
  {
    if Inv(cfg, s) && a in cfg.agents {
      var s' := Spawn(s, a);
      SpawnKeeps(cfg, s, a);
      LiveLoopsAre(s'.loops, a);
      assert a in s'.running;
      if a !in s.running { assert s'.loops[..|s.loops|] == s.loops; }
    }
  }

  lemma StepKeeps(cfg: Config, s: Sys, e: Event)
    requires Inv(cfg, s)
    ensures Inv(cfg, Step(cfg, s, e))
  {
    match e {
      case Turns(i, signalled) => if At(s, i, Top) { TurnKeeps(cfg, s, i, signalled); }
      case Returns(i, out, nudged) => if At(s, i, Stepping) { ReturnedKeeps(cfg, s, i, out, nudged); }
      case Retries(i) => if At(s, i, Backoff) { GoKeeps(cfg, s, i, if s.env.interrupt then Done else Top); }
      case Polls(i) => if IsParked(s, i) { PollKeeps(cfg, s, i); }
      case Joins(i, a) => if a in cfg.agents { SpawnKeeps(cfg, s, a); }
      case Starts(a) => if a in cfg.agents { SpawnKeeps(cfg, s, a); }
      case _ =>
    }
  }

  /** Over every interleaving: no agent has two live loops, the sets of running and parked agents
      are exact, a loop retries at most so often in a row, and idles at most once and goes on. */
  lemma {:induction false} RunKeeps(cfg: Config, env: Env, es: seq<Event>)
    ensures Inv(cfg, Run(cfg, Begin(env), es))
    decreases |es|
  {
    hide Inv, Step;
    if es == [] { BeginFits(cfg, env); }
    else {
      RunKeeps(cfg, env, es[..|es| - 1]);
      StepKeeps(cfg, Run(cfg, Begin(env), es[..|es| - 1]), es[|es| - 1]);
    }
  }

  lemma BeginFits(cfg: Config, env: Env)
    ensures Inv(cfg, Begin(env))
  {}

  // ---- The budget ------------------------------------------------------------------------------------

  /** The agents whose loops are inside a model call. */
  function Busy(loops: seq<Loop>): set<Id> {
    set l | l in loops && l.loc.Stepping? :: l.agent
  }

  /** The agents that have had a loop in this run. */
  function Ran(loops: seq<Loop>): set<Id> {
    set l | l in loops :: l.agent
  }

  ghost predicate InBudget(cfg: Config, s: Sys) {
    cfg.maxSteps > 0 ==> s.total + |Busy(s.loops)| <= cfg.maxSteps + |Ran(s.loops)| - 1
  }

  lemma BusyAre(loops: seq<Loop>)
    ensures |Busy(loops)| <= |Ran(loops)|
  {
    SubsetSize(Busy(loops), Ran(loops));
  }

  /** Loops are only added, and stay their agents'. */
  lemma RanGrows(loops: seq<Loop>, loops': seq<Loop>)
    requires |loops| <= |loops'| && forall j :: 0 <= j < |loops| ==> loops'[j].agent == loops[j].agent
    ensures |Ran(loops)| <= |Ran(loops')|
  {
    forall a | a in Ran(loops) ensures a in Ran(loops') {
      var l :| l in loops && l.agent == a;
      var j :| 0 <= j < |loops| && loops[j] == l;
      assert loops'[j] in loops';
    }
    SubsetSize(Ran(loops), Ran(loops'));
  }

  lemma SubsetSize<T>(a: set<T>, b: set<T>)
    requires a <= b
    ensures |a| <= |b|
  {
    assert b == a + (b - a);
  }

  /** A busy loop that stops being busy. */
  lemma LessBusy(s: Sys, i: nat, l: Loop)
    requires OneEach(s.loops) && i < |s.loops| && s.loops[i].loc.Stepping? && !l.loc.Stepping?
    ensures Busy(s.loops[i := l]) == Busy(s.loops) - {s.loops[i].agent}
    ensures s.loops[i].agent in Busy(s.loops)
  {
    var a, after := s.loops[i].agent, s.loops[i := l];
    assert s.loops[i] in s.loops;
    forall b | b in Busy(after) ensures b in Busy(s.loops) && b != a {
      var m :| m in after && m.loc.Stepping? && m.agent == b;
      var j :| 0 <= j < |after| && after[j] == m;
      assert j != i && s.loops[j] == m && m in s.loops;
    }
    forall b | b in Busy(s.loops) && b != a ensures b in Busy(after) {
      var m :| m in s.loops && m.loc.Stepping? && m.agent == b;
      var j :| 0 <= j < |s.loops| && s.loops[j] == m;
      assert after[j] == m && m in after;
    }
  }

  /** Loop i alone has changed, if any. */
  ghost predicate OnlyLoop(s: Sys, s': Sys, i: nat) {
    && i < |s.loops| && |s'.loops| == |s.loops| && s'.loops[i].agent == s.loops[i].agent
    && forall j :: 0 <= j < |s.loops| && j != i ==> s'.loops[j] == s.loops[j]
  }

  lemma PollOnly(cfg: Config, s: Sys, i: nat)
    requires IsParked(s, i)
    ensures var s' := Poll(cfg, s, i); OnlyLoop(s, s', i) && !s'.loops[i].loc.Stepping? && s'.total == s.total
  {}

  lemma ParkOnly(cfg: Config, s: Sys, i: nat)
    requires i < |s.loops|
    ensures var s' := Park(cfg, s, i); OnlyLoop(s, s', i) && !s'.loops[i].loc.Stepping? && s'.total == s.total
  {
    hide Poll;
    var p := s.env.proto;
    var s1 := Go(s, i, if p.Some? then Parked(p.value.phase, p.value.open) else Parked(0, false));
    PollOnly(cfg, s1, i);
  }

  lemma TurnOnly(cfg: Config, s: Sys, i: nat, signalled: bool)
    requires i < |s.loops|
    ensures var s' := Turn(cfg, s, i, signalled);
            OnlyLoop(s, s', i) && (s'.loops[i].loc.Stepping? ==> !Spent(cfg, s)) && s'.total == s.total
  {
    hide Park;
    ParkOnly(cfg, s, i);
  }

  lemma ReturnedOnly(cfg: Config, s: Sys, i: nat, out: Outcome, nudged: bool)
    requires i < |s.loops|
    ensures var s' := Returned(cfg, s, i, out, nudged);
            && OnlyLoop(s, s', i) && !s'.loops[i].loc.Stepping?
            && s'.total == s.total + if out.Stepped? then 1 else 0
  {
    hide Park;
    if out.Stepped? {
      var l1 := s.loops[i].(retries := 0);
      var s1 := s.(total := s.total + 1);
      var l2 := if out.drained then l1.(idle := 0) else l1;
      ParkOnly(cfg, Move(s1, i, l2), i);
    }
  }

  /** What a step does to the total and to the loops: a loop becomes busy only at its turn and with
      budget left; the total grows only by a busy loop's return. */
  lemma StepShape(cfg: Config, s: Sys, e: Event)
    ensures var s' := Step(cfg, s, e);
            && |s.loops| <= |s'.loops| <= |s.loops| + 1
            && (s'.total == s.total || (s'.total == s.total + 1 && e.Returns? && At(s, e.i, Stepping)))
            && (forall j :: 0 <= j < |s'.loops| && s'.loops[j].loc.Stepping? && !At(s, j, Stepping) ==>
                  e.Turns? && e.i == j && At(s, j, Top) && !Spent(cfg, s) && s'.total == s.total)
            && (e.Returns? && At(s, e.i, Stepping) ==> !s'.loops[e.i].loc.Stepping?)
            && (forall j :: 0 <= j < |s.loops| && (e.Turns? || e.Returns? || e.Retries? || e.Polls? ==> e.i != j) ==>
                  s'.loops[j] == s.loops[j])
            && (e.Turns? || e.Returns? || e.Retries? || e.Polls? ==> |s'.loops| == |s.loops|)
            && (forall j :: 0 <= j < |s.loops| ==> s'.loops[j].agent == s.loops[j].agent)
  {
    hide Turn, Returned, Poll;
    match e {
      case Turns(i, signalled) => if At(s, i, Top) { TurnOnly(cfg, s, i, signalled); }
      case Returns(i, out, nudged) => if At(s, i, Stepping) { ReturnedOnly(cfg, s, i, out, nudged); }
      case Polls(i) => if IsParked(s, i) { PollOnly(cfg, s, i); }
      case _ =>
    }
  }

  lemma StepInBudget(cfg: Config, s: Sys, e: Event)
    requires Inv(cfg, s) && InBudget(cfg, s)
    ensures InBudget(cfg, Step(cfg, s, e))
  {
    hide Inv, Busy, Ran, Step;
    var s' := Step(cfg, s, e);
    StepShape(cfg, s, e);
    BusyAre(s'.loops);
    RanGrows(s.loops, s'.loops);
    if s'.total != s.total {
      ReturnBusy(cfg, s, s', e.i);
    } else if j :| 0 <= j < |s'.loops| && s'.loops[j].loc.Stepping? && !At(s, j, Stepping) {
      assert !Spent(cfg, s);
    } else {
      NoneBusier(s, s');
    }
  }

  lemma ReturnBusy(cfg: Config, s: Sys, s': Sys, i: nat)
    requires Inv(cfg, s) && At(s, i, Stepping) && |s'.loops| == |s.loops| && !s'.loops[i].loc.Stepping?
    requires forall j :: 0 <= j < |s.loops| && j != i ==> s'.loops[j] == s.loops[j]
    ensures |Busy(s.loops)| >= 1 && |Busy(s'.loops)| == |Busy(s.loops)| - 1
  {
    LessBusy(s, i, s'.loops[i]);
    assert s'.loops == s.loops[i := s'.loops[i]];
  }

  lemma NoneBusier(s: Sys, s': Sys)
    requires |s.loops| <= |s'.loops|
    requires forall j :: 0 <= j < |s'.loops| && s'.loops[j].loc.Stepping? ==> At(s, j, Stepping)
    requires forall j :: 0 <= j < |s'.loops| && s'.loops[j].loc.Stepping? ==>
              j < |s.loops| && s'.loops[j].agent == s.loops[j].agent
    ensures |Busy(s'.loops)| <= |Busy(s.loops)|
  {
    forall a | a in Busy(s'.loops) ensures a in Busy(s.loops) {
      var m :| m in s'.loops && m.loc.Stepping? && m.agent == a;
      var j :| 0 <= j < |s'.loops| && s'.loops[j] == m;
      assert s.loops[j] in s.loops;
    }
    SubsetSize(Busy(s'.loops), Busy(s.loops));
  }

  /** Completed steps and steps under way never exceed the budget by more than the other agents that
      have had a loop, over every interleaving. */
  lemma {:induction false} BudgetHolds(cfg: Config, env: Env, es: seq<Event>)
    requires cfg.maxSteps > 0
    ensures var s := Run(cfg, Begin(env), es); s.total + |Busy(s.loops)| <= cfg.maxSteps + |Ran(s.loops)| - 1
    decreases |es|
  {
    hide Inv, Step, Busy, Ran;
    if es == [] { NobodyBusy(env); }
    else {
      BudgetHolds(cfg, env, es[..|es| - 1]);
      RunKeeps(cfg, env, es[..|es| - 1]);
      StepInBudget(cfg, Run(cfg, Begin(env), es[..|es| - 1]), es[|es| - 1]);
    }
  }

  lemma NobodyBusy(env: Env)
    ensures Busy(Begin(env).loops) == {}
  {}

  lemma {:induction false} TotalGrows(cfg: Config, s: Sys, es: seq<Event>)
    ensures Run(cfg, s, es).total >= s.total
    decreases |es|
  {
    hide Step;
    if es != [] {
      TotalGrows(cfg, s, es[..|es| - 1]);
      StepShape(cfg, Run(cfg, s, es[..|es| - 1]), es[|es| - 1]);
    }
  }

  /** Once the budget is spent no model call starts any more: whatever is under way later was
      under way then. */
  lemma {:induction false} NoCallStartsOverBudget(cfg: Config, s: Sys, es: seq<Event>, i: nat)
    requires Spent(cfg, s) && At(Run(cfg, s, es), i, Stepping)
    ensures At(s, i, Stepping)
    decreases |es|
  {
    hide Step;
    if es != [] {
      var front := es[..|es| - 1];
      TotalGrows(cfg, s, front);
      StepShape(cfg, Run(cfg, s, front), es[|es| - 1]);
      NoCallStartsOverBudget(cfg, s, front, i);
    }
  }

  // ---- ... and the bound is met --------------------------------------------------------------------------

  const CALM := Env(map[], None, false, false, false)

  /** The first k agents' loops: those from lo to hi inside a model call, the others at the top. */
  function Row(names: seq<Id>, k: nat, lo: nat, hi: nat, total: nat): Sys
    requires k <= |names|
  {
    Sys(seq(k, j requires 0 <= j < k => Loop(names[j], if lo <= j < hi then Stepping else Top, 0, 0)),
        set j | 0 <= j < k :: names[j], {}, total, false, CALM)
  }

  const WORKED := Stepped(true, false, false)

  lemma RowSpawns(cfg: Config, names: seq<Id>, k: nat)
    requires Distinct(names) && k < |names| && names[k] in cfg.agents
    ensures Step(cfg, Row(names, k, 0, 0, 0), Starts(names[k])) == Row(names, k + 1, 0, 0, 0)
  {
    var s, s' := Row(names, k, 0, 0, 0), Row(names, k + 1, 0, 0, 0);
    assert s'.loops == s.loops + [Loop(names[k], Top, 0, 0)];
    assert s'.running == s.running + {names[k]};
  }

  lemma RowTurns(cfg: Config, names: seq<Id>, hi: nat, total: nat)
    requires hi < |names| && (cfg.maxSteps == 0 || total < cfg.maxSteps)
    ensures Step(cfg, Row(names, |names|, 0, hi, total), Turns(hi, false)) == Row(names, |names|, 0, hi + 1, total)
  {
    var s, s' := Row(names, |names|, 0, hi, total), Row(names, |names|, 0, hi + 1, total);
    assert s'.loops == s.loops[hi := Loop(names[hi], Stepping, 0, 0)];
  }

  lemma RowReturns(cfg: Config, names: seq<Id>, lo: nat, hi: nat, total: nat)
    requires lo < hi <= |names|
    ensures Step(cfg, Row(names, |names|, lo, hi, total), Returns(lo, WORKED, false))
            == Row(names, |names|, lo + 1, hi, total + 1)
  {
    var s, s' := Row(names, |names|, lo, hi, total), Row(names, |names|, lo + 1, hi, total + 1);
    assert s'.loops == s.loops[lo := Loop(names[lo], Top, 0, 0)];
  }

  lemma RowIdle(names: seq<Id>, lo: nat, hi: nat, total: nat)
    requires hi <= lo
    ensures Row(names, |names|, lo, hi, total) == Row(names, |names|, 0, 0, total)
  {
    assert Row(names, |names|, lo, hi, total).loops == Row(names, |names|, 0, 0, total).loops;
  }

  lemma RunSnoc(cfg: Config, s: Sys, es: seq<Event>, e: Event)
    ensures Run(cfg, s, es + [e]) == Step(cfg, Run(cfg, s, es), e)
  {
    assert (es + [e])[..|es|] == es;
  }

  lemma {:induction false} ReachSpawned(cfg: Config, names: seq<Id>, k: nat) returns (es: seq<Event>)
    requires Distinct(names) && k <= |names| && forall j :: 0 <= j < |names| ==> names[j] in cfg.agents
    ensures Run(cfg, Begin(CALM), es) == Row(names, k, 0, 0, 0)
  {
    hide Step;
    if k == 0 {
      es := [];
      assert Row(names, 0, 0, 0, 0) == Begin(CALM);
    } else {
      es := ReachSpawned(cfg, names, k - 1);
      RunSnoc(cfg, Begin(CALM), es, Starts(names[k - 1]));
      RowSpawns(cfg, names, k - 1);
      es := es + [Starts(names[k - 1])];
    }
  }

  lemma {:induction false} ReachTotal(cfg: Config, names: seq<Id>, total: nat) returns (es: seq<Event>)
    requires Distinct(names) && names != [] && forall j :: 0 <= j < |names| ==> names[j] in cfg.agents
    requires total <= cfg.maxSteps
    ensures Run(cfg, Begin(CALM), es) == Row(names, |names|, 0, 0, total)
    decreases total
  {
    hide Step, Row;
    if total == 0 {
      es := ReachSpawned(cfg, names, |names|);
    } else {
      es := ReachTotal(cfg, names, total - 1);
      RunSnoc(cfg, Begin(CALM), es, Turns(0, false));
      RowTurns(cfg, names, 0, total - 1);
      es := es + [Turns(0, false)];
      RunSnoc(cfg, Begin(CALM), es, Returns(0, WORKED, false));
      RowReturns(cfg, names, 0, 1, total - 1);
      RowIdle(names, 1, 1, total);
      es := es + [Returns(0, WORKED, false)];
    }
  }

  lemma {:induction false} ReachBusy(cfg: Config, names: seq<Id>, hi: nat) returns (es: seq<Event>)
    requires Distinct(names) && names != [] && (forall j :: 0 <= j < |names| ==> names[j] in cfg.agents)
    requires cfg.maxSteps > 0 && hi <= |names|
    ensures Run(cfg, Begin(CALM), es) == Row(names, |names|, 0, hi, cfg.maxSteps - 1)
    decreases hi
  {
    hide Step, Row;
    if hi == 0 {
      es := ReachTotal(cfg, names, cfg.maxSteps - 1);
    } else {
      es := ReachBusy(cfg, names, hi - 1);
      RunSnoc(cfg, Begin(CALM), es, Turns(hi - 1, false));
      RowTurns(cfg, names, hi - 1, cfg.maxSteps - 1);
      es := es + [Turns(hi - 1, false)];
    }
  }

  lemma {:induction false} ReachOver(cfg: Config, names: seq<Id>, lo: nat) returns (es: seq<Event>)
    requires Distinct(names) && names != [] && (forall j :: 0 <= j < |names| ==> names[j] in cfg.agents)
    requires cfg.maxSteps > 0 && lo <= |names|
    ensures Run(cfg, Begin(CALM), es) == Row(names, |names|, lo, |names|, cfg.maxSteps - 1 + lo)
    decreases lo
  {
    hide Step, Row;
    if lo == 0 {
      es := ReachBusy(cfg, names, |names|);
    } else {
      es := ReachOver(cfg, names, lo - 1);
      RunSnoc(cfg, Begin(CALM), es, Returns(lo - 1, WORKED, false));
      RowReturns(cfg, names, lo - 1, |names|, cfg.maxSteps - 1 + (lo - 1));
      es := es + [Returns(lo - 1, WORKED, false)];
    }
  }

  /** For every budget and every set of agents some interleaving completes as many steps as the
      bound allows: the cap is passed by the number of agents less one. */
  lemma BudgetBoundIsMet(cfg: Config, names: seq<Id>) returns (es: seq<Event>)
    requires cfg.maxSteps > 0 && Distinct(names) && names != []
    requires forall j :: 0 <= j < |names| ==> names[j] in cfg.agents
    ensures var s := Run(cfg, Begin(CALM), es);
            s.total == cfg.maxSteps + |names| - 1 && |Ran(s.loops)| == |names|
  {
    es := ReachOver(cfg, names, |names|);
    RowRan(names, |names|, |names|, |names|, cfg.maxSteps - 1 + |names|);
  }

  lemma {:induction false} RowRan(names: seq<Id>, k: nat, lo: nat, hi: nat, total: nat)
    requires Distinct(names) && k <= |names|
    ensures |Ran(Row(names, k, lo, hi, total).loops)| == k
    decreases k
  {
    var loops := Row(names, k, lo, hi, total).loops;
    if k == 0 {
      assert Ran(loops) == {};
    } else {
      var front := Row(names, k - 1, lo, hi, total).loops;
      RowRan(names, k - 1, lo, hi, total);
      assert loops == front + [loops[k - 1]];
      forall l | l in front ensures l.agent != names[k - 1] { var j :| 0 <= j < k - 1 && front[j] == l; }
      assert Ran(loops) == Ran(front) + {names[k - 1]};
    }
  }

  // ---- Deadlock: safe ------------------------------------------------------------------------------------

  /** What the detector has checked: every live loop is parked, every inbox of the session is empty,
      and nobody can be asked. It does not ask whether the phase or the gate has moved already, which
      wakes a parked loop as well: see `DetectorIsRightIff`. */
  ghost predicate Stuck(cfg: Config, s: Sys) {
    && (forall i :: 0 <= i < |s.loops| ==> s.loops[i].loc.Parked? || s.loops[i].loc.Done?)
    && AllEmpty(cfg, s.env) && !s.env.interact
  }

  /** The agents that have a live loop. */
  function Alive(loops: seq<Loop>): set<Id> {
    set l | l in loops && Live(l) :: l.agent
  }

  lemma AliveSnoc(front: seq<Loop>, last: Loop)
    requires OneEach(front + [last])
    ensures OneEach(front) && Alive(front + [last]) == Alive(front) + if Live(last) then {last.agent} else {}
    ensures Live(last) ==> last.agent !in Alive(front)
  {
    var loops := front + [last];
    assert forall j :: 0 <= j < |front| ==> loops[j] == front[j];
    assert loops[|front|] == last;
    forall l | l in front && Live(l) && Live(last) ensures l.agent != last.agent {
      var j :| 0 <= j < |front| && front[j] == l;
      assert loops[j] == l;
    }
    assert forall l :: l in loops <==> l in front || l == last;
  }

  lemma {:induction false} LiveCountIs(loops: seq<Loop>)
    requires OneEach(loops)
    ensures LiveCount(loops) == |Alive(loops)|
    decreases |loops|
  {
    hide Alive, OneEach;
    if loops == [] {
      NoneAlive();
    } else {
      var front, last := loops[..|loops| - 1], loops[|loops| - 1];
      assert loops == front + [last];
      AliveSnoc(front, last);
      LiveCountIs(front);
    }
  }

  lemma NoneAlive()
    ensures Alive([]) == {}
  {}

  /** Under the invariant the detector's two counts compare the sets they stand for. */
  lemma CountsAgree(cfg: Config, s: Sys)
    requires Inv(cfg, s)
    ensures |s.parked| >= LiveCount(s.loops)
            <==> forall i :: 0 <= i < |s.loops| ==> s.loops[i].loc.Parked? || s.loops[i].loc.Done?
  {
    var alive := Alive(s.loops);
    LiveCountIs(s.loops);
    RunningAre(cfg, s);
    assert alive == s.running && s.parked <= s.running;
    if forall i :: 0 <= i < |s.loops| ==> s.loops[i].loc.Parked? || s.loops[i].loc.Done? {
      forall a | a in s.running ensures a in s.parked {
        var i :| 0 <= i < |s.loops| && Live(s.loops[i]) && s.loops[i].agent == a;
        assert s.loops[i].loc.Parked?;
      }
      assert s.parked == s.running;
    }
    if |s.parked| >= LiveCount(s.loops) {
      SameSet(s.parked, s.running);
      forall i | 0 <= i < |s.loops| && Live(s.loops[i]) ensures s.loops[i].loc.Parked? {
        assert s.loops[i].agent in s.running;
        var j :| 0 <= j < |s.loops| && s.loops[j].loc.Parked? && s.loops[j].agent == s.loops[i].agent;
        assert Live(s.loops[j]);
      }
    }
  }

  lemma RunningAre(cfg: Config, s: Sys)
    requires Inv(cfg, s)
    ensures Alive(s.loops) == s.running && s.parked <= s.running
  {
    var alive := Alive(s.loops);
    forall a | a in alive ensures a in s.running {
      var l :| l in s.loops && Live(l) && l.agent == a;
      var i :| 0 <= i < |s.loops| && s.loops[i] == l;
    }
    forall a | a in s.running ensures a in alive {
      var i :| 0 <= i < |s.loops| && Live(s.loops[i]) && s.loops[i].agent == a;
      assert s.loops[i] in s.loops;
    }
    forall a | a in s.parked ensures a in s.running {
      var i :| 0 <= i < |s.loops| && s.loops[i].loc.Parked? && s.loops[i].agent == a;
      assert Live(s.loops[i]);
    }
  }

  lemma SameSet<T>(a: set<T>, b: set<T>)
    requires a <= b && |a| >= |b|
    ensures a == b
  {
    assert b == a + (b - a);
  }

  /** The detector fires only when every live loop is parked, all inboxes are empty and there is
      nobody to ask. */
  lemma DetectorIsSafe(cfg: Config, s: Sys, e: Event)
    requires Inv(cfg, s) && !s.deadlock && Step(cfg, s, e).deadlock
    ensures Stuck(cfg, Step(cfg, s, e)) && !s.env.interrupt && !s.env.closed && !Spent(cfg, s)
  {
    hide Inv, Park;
    match e {
      case Polls(i) => PollFires(cfg, s, i);
      case Turns(i, signalled) => ParkFires(cfg, s, i);
      case Returns(i, out, nudged) => ReturnFires(cfg, s, i, out, nudged);
    }
  }

  lemma PollFires(cfg: Config, s: Sys, i: nat)
    requires Inv(cfg, s) && IsParked(s, i) && !s.deadlock && Poll(cfg, s, i).deadlock
    ensures Stuck(cfg, Poll(cfg, s, i)) && !s.env.interrupt && !s.env.closed && !Spent(cfg, s)
  {
    hide Inv;
    CountsAgree(cfg, s);
  }

  lemma ReturnFires(cfg: Config, s: Sys, i: nat, out: Outcome, nudged: bool)
    requires Inv(cfg, s) && At(s, i, Stepping) && !s.deadlock && Returned(cfg, s, i, out, nudged).deadlock
    ensures Stuck(cfg, Returned(cfg, s, i, out, nudged)) && !s.env.interrupt && !s.env.closed && !Spent(cfg, s)
  {
    hide Inv, Park;
    var l1 := s.loops[i].(retries := 0);
    var l2 := if out.drained then l1.(idle := 0) else l1;
    var s1 := s.(total := s.total + 1);
    StepCounted(cfg, s);
    LoopFits(cfg, s, i);
    MoveKeeps(cfg, s1, i, l2);
    ParkFires(cfg, Move(s1, i, l2), i);
  }

  lemma ParkFires(cfg: Config, s: Sys, i: nat)
    requires Inv(cfg, s) && i < |s.loops| && Live(s.loops[i]) && !s.deadlock && Park(cfg, s, i).deadlock
    ensures Stuck(cfg, Park(cfg, s, i)) && !s.env.interrupt && !s.env.closed && !Spent(cfg, s)
  {
    hide Inv, Poll;
    var p := s.env.proto;
    var loc := if p.Some? then Parked(p.value.phase, p.value.open) else Parked(0, false);
    GoKeeps(cfg, s, i, loc);
    PollFires(cfg, Go(s, i, loc), i);
  }

  /** Loop i waits or has ended, and stays so whatever happens once the deadlock is declared. */
  ghost predicate AtRest(s: Sys, i: nat) {
    i < |s.loops| && (s.loops[i].loc.Parked? || s.loops[i].loc.Done?)
  }

  lemma PollAtRest(cfg: Config, s: Sys, i: nat)
    requires s.deadlock && IsParked(s, i)
    ensures Poll(cfg, s, i) == Go(s, i, Done)
  {}

  lemma StepAtRest(cfg: Config, s: Sys, e: Event, i: nat)
    requires s.deadlock && AtRest(s, i)
    ensures Step(cfg, s, e).deadlock && AtRest(Step(cfg, s, e), i)
  {
    StepShape(cfg, s, e);
    if e.Polls? && IsParked(s, e.i) { PollAtRest(cfg, s, e.i); }
  }

  /** After the deadlock is declared no loop that was there ever makes another model call, even
      when messages or people arrive later: it ends at its next poll. */
  lemma {:induction false} DeadlockIsFinal(cfg: Config, s: Sys, es: seq<Event>, i: nat)
    requires s.deadlock && AtRest(s, i)
    ensures Run(cfg, s, es).deadlock && AtRest(Run(cfg, s, es), i)
    decreases |es|
  {
    hide Step;
    if es != [] {
      DeadlockIsFinal(cfg, s, es[..|es| - 1], i);
      StepAtRest(cfg, Run(cfg, s, es[..|es| - 1]), es[|es| - 1], i);
    }
  }

  // ---- Deadlock: prompt? ----------------------------------------------------------------------------------

  /** Nothing has happened that would wake a parked loop. */
  ghost predicate Asleep(s: Sys, i: nat) {
    AtRest(s, i) && (IsParked(s, i) ==> Size(s.env, s.loops[i].agent) == 0 && !Stirred(s.env.proto, s.loops[i].loc))
  }

  /** Every live loop is parked and asleep, and nobody can be asked. */
  ghost predicate Quiet(cfg: Config, s: Sys) {
    && Inv(cfg, s)
    && !s.env.interact && !s.env.interrupt && !s.env.closed && !s.deadlock && !Spent(cfg, s)
    && (forall i :: 0 <= i < |s.loops| ==> Asleep(s, i))
    && exists i :: IsParked(s, i)
  }

  /** What happens without anyone outside. */
  predicate Inside(e: Event) {
    !e.Outside? && !e.Starts?
  }

  lemma LiveCountPositive(loops: seq<Loop>, i: nat)
    requires i < |loops| && Live(loops[i])
    ensures LiveCount(loops) > 0
    decreases |loops|
  {
    if i < |loops| - 1 { LiveCountPositive(loops[..|loops| - 1], i); }
  }

  /** In a quiet run the next poll of any loop declares the deadlock exactly when every inbox of
      the session is empty, and otherwise changes nothing. */
  lemma QuietPollIff(cfg: Config, s: Sys, i: nat)
    requires Quiet(cfg, s) && IsParked(s, i)
    ensures Step(cfg, s, Polls(i)).deadlock <==> AllEmpty(cfg, s.env)
    ensures !AllEmpty(cfg, s.env) ==> Step(cfg, s, Polls(i)) == s
  {
    hide Inv;
    assert Asleep(s, i);
    forall j | 0 <= j < |s.loops| ensures s.loops[j].loc.Parked? || s.loops[j].loc.Done? { assert Asleep(s, j); }
    CountsAgree(cfg, s);
    LiveCountPositive(s.loops, i);
  }

  lemma QuietStays(cfg: Config, s: Sys, e: Event)
    requires Quiet(cfg, s) && !AllEmpty(cfg, s.env) && Inside(e)
    ensures Step(cfg, s, e) == s
  {
    hide Inv, Turn, Returned, Poll;
    match e {
      case Polls(i) => if IsParked(s, i) { QuietPollIff(cfg, s, i); }
      case Turns(i, _) => if i < |s.loops| { assert Asleep(s, i); }
      case Returns(i, _, _) => if i < |s.loops| { assert Asleep(s, i); }
      case Retries(i) => if i < |s.loops| { assert Asleep(s, i); }
      case Acts(i, _, _) => if i < |s.loops| { assert Asleep(s, i); }
      case Joins(i, _) => if i < |s.loops| { assert Asleep(s, i); }
    }
  }

  /** With a message left anywhere, a quiet run hangs: without anyone outside nothing ever changes. */
  lemma {:induction false} QuietHangs(cfg: Config, s: Sys, es: seq<Event>)
    requires Quiet(cfg, s) && !AllEmpty(cfg, s.env) && forall e :: e in es ==> Inside(e)
    ensures Run(cfg, s, es) == s
    decreases |es|
  {
    hide Step, Quiet, AllEmpty;
    if es != [] {
      QuietHangs(cfg, s, es[..|es| - 1]);
      assert es[|es| - 1] in es;
      QuietStays(cfg, s, es[|es| - 1]);
    }
  }

  ghost predicate Declares(cfg: Config, s: Sys, es: seq<Event>) {
    (forall e :: e in es ==> Inside(e)) && Run(cfg, s, es).deadlock
  }

  /** So a quiet run ends by itself if and only if every inbox of the session is empty, those of
      agents whose loops have ended included. */
  lemma QuietEndsIff(cfg: Config, s: Sys)
    requires Quiet(cfg, s)
    ensures (exists es: seq<Event> :: Declares(cfg, s, es)) <==> AllEmpty(cfg, s.env)
  {
    var i: nat :| IsParked(s, i);
    if AllEmpty(cfg, s.env) {
      QuietPollIff(cfg, s, i);
      assert [Polls(i)][..0] == [];
      assert Run(cfg, s, []) == s;
      assert Run(cfg, s, [Polls(i)]) == Step(cfg, s, Polls(i));
      assert Declares(cfg, s, [Polls(i)]);
    } else if es: seq<Event> :| Declares(cfg, s, es) {
      QuietHangs(cfg, s, es);
    }
  }

  // ---- Deadlock: nothing left to wake them? -----------------------------------------------------------------

  /** The state with the detector switched off: a person can be asked, and stays silent. */
  function Patient(s: Sys): Sys {
    s.(env := s.env.(interact := true))
  }

  /** Some other parked loop has a reason to go on that it has not polled yet. */
  ghost predicate OtherStirred(s: Sys, i: nat) {
    exists j: nat :: j != i && IsParked(s, j) && Stirred(s.env.proto, s.loops[j].loc)
  }

  /** Without the detector nothing inside the session would ever change. */
  ghost predicate NothingCanMove(cfg: Config, s: Sys) {
    forall es: seq<Event> :: (forall e :: e in es ==> Inside(e)) ==> Run(cfg, Patient(s), es) == Patient(s)
  }

  /** Loop j's own next poll would have sent it on, and after the step it never goes on again. */
  ghost predicate LosesWake(cfg: Config, s: Sys, e: Event, j: nat) {
    && IsParked(s, j) && Step(cfg, s, Polls(j)).loops[j].loc.Top?
    && forall es: seq<Event> :: AtRest(Run(cfg, Step(cfg, s, e), es), j)
  }

  /** The poll within the step that declares the deadlock, and the state it looked at: the one
      before the step, with loop e.i parked. */
  lemma DeclaringPoll(cfg: Config, s: Sys, e: Event) returns (u: Sys)
    requires Inv(cfg, s) && !s.deadlock && Step(cfg, s, e).deadlock
    ensures e.Polls? || e.Turns? || e.Returns?
    ensures Inv(cfg, u) && IsParked(u, e.i) && OnlyLoop(s, u, e.i) && u.env == s.env && !u.deadlock
    ensures Poll(cfg, u, e.i) == Step(cfg, s, e)
  {
    hide Inv, Poll;
    match e {
      case Polls(i) => u := s;
      case Turns(i, signalled) => u := ParkedAt(cfg, s, i);
      case Returns(i, out, nudged) =>
        var l1 := s.loops[i].(retries := 0);
        var l2 := if out.drained then l1.(idle := 0) else l1;
        var s1 := s.(total := s.total + 1);
        StepCounted(cfg, s);
        LoopFits(cfg, s, i);
        MoveKeeps(cfg, s1, i, l2);
        u := ParkedAt(cfg, Move(s1, i, l2), i);
    }
  }

  lemma ParkedAt(cfg: Config, s: Sys, i: nat) returns (u: Sys)
    requires Inv(cfg, s) && i < |s.loops| && Live(s.loops[i])
    ensures Inv(cfg, u) && IsParked(u, i) && OnlyLoop(s, u, i) && u.env == s.env && u.deadlock == s.deadlock
    ensures u.total == s.total && Poll(cfg, u, i) == Park(cfg, s, i)
  {
    hide Inv, Poll;
    var p := s.env.proto;
    var loc := if p.Some? then Parked(p.value.phase, p.value.open) else Parked(0, false);
    GoKeeps(cfg, s, i, loc);
    u := Go(s, i, loc);
  }

  /** What a poll has seen that declares the deadlock. */
  lemma DeclaredAt(cfg: Config, u: Sys, i: nat)
    requires Inv(cfg, u) && IsParked(u, i) && !u.deadlock && Poll(cfg, u, i).deadlock
    ensures !u.env.interact && !u.env.interrupt && !u.env.closed && !Spent(cfg, u) && AllEmpty(cfg, u.env)
    ensures !Stirred(u.env.proto, u.loops[i].loc) && forall j :: 0 <= j < |u.loops| ==> AtRest(u, j)
  {
    hide Inv;
    CountsAgree(cfg, u);
  }

  lemma MembersIn(cfg: Config, u: Sys, j: nat)
    requires Inv(cfg, u) && j < |u.loops|
    ensures u.loops[j].agent in cfg.agents
  {}

  lemma {:induction false} PatientStays(cfg: Config, u: Sys, es: seq<Event>)
    requires !u.env.interrupt && !u.env.closed && !u.deadlock && !Spent(cfg, u)
    requires forall j :: 0 <= j < |u.loops| ==> Asleep(u, j)
    requires forall e :: e in es ==> Inside(e)
    ensures Run(cfg, Patient(u), es) == Patient(u)
    decreases |es|
  {
    hide Step, Asleep;
    if es != [] {
      PatientStays(cfg, u, es[..|es| - 1]);
      assert es[|es| - 1] in es;
      PatientStep(cfg, u, es[|es| - 1]);
    }
  }

  lemma PatientStep(cfg: Config, u: Sys, e: Event)
    requires !u.env.interrupt && !u.env.closed && !u.deadlock && !Spent(cfg, u)
    requires forall j :: 0 <= j < |u.loops| ==> Asleep(u, j)
    requires Inside(e)
    ensures Step(cfg, Patient(u), e) == Patient(u)
  {
    hide Turn, Returned;
    if e.i < |u.loops| { assert Asleep(u, e.i); }
  }

  /** A parked loop with an empty inbox goes on at its next poll exactly when it is stirred. */
  lemma WakesIff(cfg: Config, u: Sys, j: nat)
    requires IsParked(u, j) && Size(u.env, u.loops[j].agent) == 0
    requires !u.env.interrupt && !u.env.closed && !u.deadlock && !Spent(cfg, u)
    ensures Step(cfg, u, Polls(j)).loops[j].loc.Top? <==> Stirred(u.env.proto, u.loops[j].loc)
  {}

  /** The deadlock is declared rightly, when nothing inside the session could have moved any more,
      exactly when no other parked loop has been stirred by a phase or a gate that moved since it
      parked; and it takes the wake-up from exactly those loops for good. */
  lemma DetectorIsRightIff(cfg: Config, s: Sys, e: Event) returns (u: Sys)
    requires Inv(cfg, s) && !s.deadlock && Step(cfg, s, e).deadlock
    ensures e.Polls? || e.Turns? || e.Returns?
    ensures IsParked(u, e.i) && OnlyLoop(s, u, e.i) && u.env == s.env && Poll(cfg, u, e.i) == Step(cfg, s, e)
    ensures NothingCanMove(cfg, u) <==> !OtherStirred(s, e.i)
    ensures forall j: nat :: j != e.i ==>
              (LosesWake(cfg, s, e, j) <==> IsParked(s, j) && Stirred(s.env.proto, s.loops[j].loc))
  {
    hide Inv, Step, Poll;
    u := DeclaringPoll(cfg, s, e);
    DeclaredAt(cfg, u, e.i);
    DetectorIsSafe(cfg, s, e);
    RightIff(cfg, u, e.i);
    SameOthers(s, u, e.i);
    forall j: nat | j != e.i
      ensures LosesWake(cfg, s, e, j) <==> IsParked(s, j) && Stirred(s.env.proto, s.loops[j].loc)
    {
      if IsParked(s, j) { LosesWakeIff(cfg, s, e, j); }
    }
  }

  lemma SameOthers(s: Sys, u: Sys, i: nat)
    requires OnlyLoop(s, u, i) && u.env == s.env
    ensures OtherStirred(u, i) <==> OtherStirred(s, i)
  {
    forall j: nat | j != i && j < |s.loops| ensures IsParked(u, j) == IsParked(s, j) && u.loops[j] == s.loops[j] {}
    if OtherStirred(u, i) {
      var j: nat :| j != i && IsParked(u, j) && Stirred(u.env.proto, u.loops[j].loc);
      assert IsParked(s, j);
    }
    if OtherStirred(s, i) {
      var j: nat :| j != i && IsParked(s, j) && Stirred(s.env.proto, s.loops[j].loc);
      assert IsParked(u, j);
    }
  }

  lemma RightIff(cfg: Config, u: Sys, i: nat)
    requires Inv(cfg, u) && IsParked(u, i) && !u.deadlock && Poll(cfg, u, i).deadlock
    ensures NothingCanMove(cfg, u) <==> !OtherStirred(u, i)
  {
    hide Inv, Poll, Step;
    DeclaredAt(cfg, u, i);
    forall j | 0 <= j < |u.loops| ensures Size(u.env, u.loops[j].agent) == 0 { MembersIn(cfg, u, j); }
    if OtherStirred(u, i) {
      var j: nat :| j != i && IsParked(u, j) && Stirred(u.env.proto, u.loops[j].loc);
      WakesIff(cfg, Patient(u), j);
      assert [Polls(j)][..0] == [] && Run(cfg, Patient(u), []) == Patient(u);
      assert Run(cfg, Patient(u), [Polls(j)]) == Step(cfg, Patient(u), Polls(j)) != Patient(u);
    } else {
      forall es: seq<Event> | forall e :: e in es ==> Inside(e) ensures Run(cfg, Patient(u), es) == Patient(u) {
        PatientStays(cfg, u, es);
      }
    }
  }

  lemma LosesWakeIff(cfg: Config, s: Sys, e: Event, j: nat)
    requires Inv(cfg, s) && !s.deadlock && Step(cfg, s, e).deadlock && IsParked(s, j)
    requires e.Polls? || e.Turns? || e.Returns?
    requires j != e.i && Stuck(cfg, Step(cfg, s, e)) && !s.env.interrupt && !s.env.closed && !Spent(cfg, s)
    requires AllEmpty(cfg, s.env)
    ensures LosesWake(cfg, s, e, j) <==> Stirred(s.env.proto, s.loops[j].loc)
  {
    hide Inv, Step, AllEmpty;
    MembersIn(cfg, s, j);
    NoneLeft(cfg, s.env, s.loops[j].agent);
    WakesIff(cfg, s, j);
    StepShape(cfg, s, e);
    var t := Step(cfg, s, e);
    assert AtRest(t, j);
    forall es: seq<Event> ensures AtRest(Run(cfg, t, es), j) { DeadlockIsFinal(cfg, t, es, j); }
  }

  lemma NoneLeft(cfg: Config, env: Env, a: Id)
    requires AllEmpty(cfg, env) && a in cfg.agents
    ensures Size(env, a) == 0
  {}

  /** Two agents' loops, in a session where nobody can be asked and the gate of phase p is closed. */
  function Two(a: Id, la: Loc, b: Id, lb: Loc, parked: set<Id>, total: nat, p: int): Sys {
    Sys([Loop(a, la, 0, 0), Loop(b, lb, 0, 0)], {a, b}, parked, total, false, ClosedGate(p))
  }

  function ClosedGate(p: int): Env {
    Env(map[], Some(Proto(p, Gated, false)), false, false, false)
  }

  lemma TwoStart(cfg: Config, a: Id, b: Id, p: int)
    requires a != b && a in cfg.agents && b in cfg.agents
    ensures Step(cfg, Step(cfg, Begin(ClosedGate(p)), Starts(a)), Starts(b)) == Two(a, Top, b, Top, {}, 0, p)
  {}

  lemma FirstParks(cfg: Config, a: Id, b: Id, p: int)
    requires a != b && cfg.maxSteps != 1
    ensures Step(cfg, Two(a, Top, b, Top, {}, 0, p), Turns(0, true)) == Two(a, Parked(p, false), b, Top, {a}, 0, p)
  {
    var u := Two(a, Parked(p, false), b, Top, {a}, 0, p);
    assert Go(Two(a, Top, b, Top, {}, 0, p), 0, Parked(p, false)) == u;
    assert u.loops[..1] == [u.loops[0]] && [u.loops[0]][..0] == [];
    assert LiveCount(u.loops[..1]) == 1;
    assert LiveCount(u.loops) == 2;
  }

  lemma SecondWorks(cfg: Config, a: Id, b: Id, p: int, q: int)
    requires a != b && cfg.maxSteps != 1
    ensures var s3, act := Two(a, Parked(p, false), b, Top, {a}, 0, p), Acts(1, map[], Some(Proto(q, Gated, false)));
            Step(cfg, Step(cfg, Step(cfg, s3, Turns(1, false)), act), Returns(1, Stepped(true, false, false), false))
            == Two(a, Parked(p, false), b, Top, {a}, 1, q)
  {
    var s3, s4 := Two(a, Parked(p, false), b, Top, {a}, 0, p), Two(a, Parked(p, false), b, Stepping, {a}, 0, p);
    assert Step(cfg, s3, Turns(1, false)) == s4;
    var s5 := Two(a, Parked(p, false), b, Stepping, {a}, 0, q);
    assert Step(cfg, s4, Acts(1, map[], Some(Proto(q, Gated, false)))) == s5;
    assert Step(cfg, s5, Returns(1, Stepped(true, false, false), false)) == Two(a, Parked(p, false), b, Top, {a}, 1, q);
  }

  lemma SecondDeclares(cfg: Config, a: Id, b: Id, p: int, q: int)
    requires a != b && cfg.maxSteps != 1
    ensures Step(cfg, Two(a, Parked(p, false), b, Top, {a}, 1, q), Turns(1, true)).deadlock
  {
    var s := Two(a, Parked(p, false), b, Top, {a}, 1, q);
    var u := Two(a, Parked(p, false), b, Parked(q, false), {a, b}, 1, q);
    assert Go(s, 1, Parked(q, false)) == u;
    assert u.loops[..1] == [u.loops[0]] && [u.loops[0]][..0] == [];
    assert LiveCount(u.loops[..1]) == 1;
    assert LiveCount(u.loops) == 2;
  }

  lemma RunBySix(cfg: Config, s: Sys, a: Event, b: Event, c: Event, d: Event, e: Event, f: Event)
    ensures Run(cfg, s, [a, b, c, d, e, f])
            == Step(cfg, Step(cfg, Step(cfg, Step(cfg, Step(cfg, Step(cfg, s, a), b), c), d), e), f)
  {
    hide Step;
    var es := [a, b, c, d, e, f];
    assert es[..6] == es && es[..0] == [];
    assert Run(cfg, s, es[..1]) == Step(cfg, s, a) by { assert es[..1][..0] == []; }
    assert Run(cfg, s, es[..2]) == Step(cfg, Run(cfg, s, es[..1]), b) by { assert es[..2][..1] == es[..1]; }
    assert Run(cfg, s, es[..3]) == Step(cfg, Run(cfg, s, es[..2]), c) by { assert es[..3][..2] == es[..2]; }
    assert Run(cfg, s, es[..4]) == Step(cfg, Run(cfg, s, es[..3]), d) by { assert es[..4][..3] == es[..3]; }
    assert Run(cfg, s, es[..5]) == Step(cfg, Run(cfg, s, es[..4]), e) by { assert es[..5][..4] == es[..4]; }
  }

  /** A run, with nobody outside, that declares the deadlock too soon: a waits in phase p; b ends
      the phase with its last act, has nothing to do in the next phase q, and parks before a has
      polled. Its own next poll would have sent a on; now it never goes on. */
  lemma DetectorEndsAWokenLoop(cfg: Config, a: Id, b: Id, p: int, q: int) returns (es: seq<Event>, s: Sys, e: Event)
    requires a != b && a in cfg.agents && b in cfg.agents && p != q && cfg.maxSteps != 1
    ensures s == Run(cfg, Begin(ClosedGate(p)), es) && forall x :: x in es + [e] ==> !x.Outside?
    ensures !s.deadlock && Step(cfg, s, e).deadlock && LosesWake(cfg, s, e, 0)
  {
    hide Step, Inv, LosesWake;
    var act := Acts(1, map[], Some(Proto(q, Gated, false)));
    es := [Starts(a), Starts(b), Turns(0, true), Turns(1, false), act, Returns(1, Stepped(true, false, false), false)];
    s, e := Two(a, Parked(p, false), b, Top, {a}, 1, q), Turns(1, true);
    RunBySix(cfg, Begin(ClosedGate(p)), es[0], es[1], es[2], es[3], es[4], es[5]);
    TwoStart(cfg, a, b, p);
    FirstParks(cfg, a, b, p);
    SecondWorks(cfg, a, b, p, q);
    RunKeeps(cfg, ClosedGate(p), es);
    SecondDeclares(cfg, a, b, p, q);
    var u := DetectorIsRightIff(cfg, s, e);
    assert IsParked(s, 0) && Stirred(s.env.proto, s.loops[0].loc);
  }

  /** After the deadlock, one poll of each loop ends the run. */
  lemma {:induction false} EveryLoopEnds(cfg: Config, s: Sys, n: nat)
    requires s.deadlock && n <= |s.loops| && forall i :: 0 <= i < |s.loops| ==> AtRest(s, i)
    ensures var r := Run(cfg, s, PollAll(n));
            && |r.loops| == |s.loops| && r.deadlock
            && (forall i :: 0 <= i < n ==> r.loops[i].loc.Done?)
            && (forall i :: n <= i < |s.loops| ==> r.loops[i] == s.loops[i])
    decreases n
  {
    hide Step, Poll;
    if n > 0 {
      EveryLoopEnds(cfg, s, n - 1);
      var es := PollAll(n);
      assert es[..n - 1] == PollAll(n - 1) && es[n - 1] == Polls(n - 1);
      var r := Run(cfg, s, PollAll(n - 1));
      assert AtRest(s, n - 1);
      EndsByPoll(cfg, r, n - 1);
    }
  }

  function PollAll(n: nat): (r: seq<Event>)
    ensures |r| == n
  {
    seq(n, i requires 0 <= i < n => Polls(i))
  }

  lemma EndsByPoll(cfg: Config, s: Sys, i: nat)
    requires s.deadlock && AtRest(s, i)
    ensures var s' := Step(cfg, s, Polls(i));
            s'.deadlock && OnlyLoop(s, s', i) && s'.loops[i].loc.Done?
  {
    if IsParked(s, i) { PollAtRest(cfg, s, i); }
  }

  const HANG_CFG := Config({"a", "b"}, 0, 0, false)
  const HANG_ENV := Env(map[], Some(Proto(1, Explore, false)), false, false, false)
  const HANG_LATE := Env(map["b" := 1], Some(Proto(1, Explore, false)), false, false, false)

  /** Agent b's model call fails for good; agent a writes to b and parks. */
  const HANG: seq<Event> :=
    [Starts("a"), Starts("b"), Turns(1, false), Returns(1, Failed(false), false), Turns(0, false),
     Acts(0, map["b" := 1], Some(Proto(1, Explore, false))), Returns(0, Stepped(false, false, true), false)]

  function HangState(k: nat): Sys {
    var a := Loop("a", if k < 5 then Top else if k < 7 then Stepping else Parked(1, false), 0, 0);
    var b := Loop("b", if k < 3 then Top else if k < 4 then Stepping else Done, 0, 0);
    Sys(if k == 0 then [] else if k == 1 then [a] else [a, b],
        if k == 0 then {} else if k == 1 || k > 3 then {"a"} else {"a", "b"},
        if k < 7 then {} else {"a"},
        if k < 7 then 0 else 1, false, if k < 6 then HANG_ENV else HANG_LATE)
  }

  lemma HangSpawns(k: nat)
    requires k < 3
    ensures Step(HANG_CFG, HangState(k), HANG[k]) == HangState(k + 1)
  {
    assert "a" != "b";
  }

  lemma HangFails(k: nat)
    requires 3 <= k < 6
    ensures Step(HANG_CFG, HangState(k), HANG[k]) == HangState(k + 1)
  {
    assert "a" != "b";
  }

  lemma HangParks()
    ensures Step(HANG_CFG, HangState(6), HANG[6]) == HangState(7)
  {
    var s := HangState(6);
    assert !AllEmpty(HANG_CFG, s.env) by { assert "b" in HANG_CFG.agents && Size(s.env, "b") == 1; }
    assert "a" != "b" && Size(s.env, "a") == 0;
    var s1 := Move(s.(total := 1), 0, s.loops[0]);
    assert s1 == s.(total := 1);
    var parked := Go(s1, 0, Parked(1, false));
    assert parked == HangState(7);
    assert Poll(HANG_CFG, parked, 0) == parked;
  }

  lemma {:induction false} HangRun(k: nat)
    requires k <= 7
    ensures Run(HANG_CFG, Begin(HANG_ENV), HANG[..k]) == HangState(k)
    decreases k
  {
    hide Step, HangState;
    if k == 0 {
      HangBegins();
    } else {
      HangRun(k - 1);
      assert HANG[..k][..k - 1] == HANG[..k - 1];
      if k <= 3 { HangSpawns(k - 1); } else if k <= 6 { HangFails(k - 1); } else { HangParks(); }
    }
  }

  lemma HangBegins()
    ensures HangState(0) == Begin(HANG_ENV)
  {}

  /** That run is quiet with a message left, so it hangs; nobody outside took part in it. */
  lemma FailedReaderHangsTheRun()
    ensures (forall e :: e in HANG ==> !e.Outside?)
    ensures var s := Run(HANG_CFG, Begin(HANG_ENV), HANG); Quiet(HANG_CFG, s) && !AllEmpty(HANG_CFG, s.env)
  {
    HangRun(7);
    assert HANG[..7] == HANG;
    RunKeeps(HANG_CFG, HANG_ENV, HANG);
    var s := HangState(7);
    assert "b" in HANG_CFG.agents && Size(s.env, "b") == 1;
    assert "a" != "b" && IsParked(s, 0) && Asleep(s, 0) && Asleep(s, 1);
  }
}
