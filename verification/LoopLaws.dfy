/** What one step does to an agent's loop, told by the fields of the run alone
    (src/agent_augury/core/session.py:1260-1440, 1600-1670). */
module LoopLaws {
  import opened Tables
  import opened RunLoop

  // ---- The conditions, on the fields ---------------------------------------------------------------

  /** The protocol holds agents back: it explores, or the gate of its phase is closed. */
  ghost predicate GateHolds(env: Env) {
    env.proto != None && (env.proto.value.kind == Explore || (env.proto.value.kind == Gated && !env.proto.value.open))
  }

  ghost predicate HasMail(env: Env, a: Id) {
    a in env.inbox && env.inbox[a] > 0
  }

  ghost predicate BudgetSpent(cfg: Config, total: nat) {
    cfg.maxSteps != 0 && cfg.maxSteps <= total
  }

  ghost predicate ProtocolOver(cfg: Config, env: Env) {
    !cfg.spent && env.proto != None && env.proto.value.kind == Over
  }

  /** The phase changed, the gate opened, or nothing holds agents back any more. */
  ghost predicate MovedOn(env: Env, phase0: int, open0: bool) {
    && env.proto != None
    && (env.proto.value.phase != phase0 || (env.proto.value.open && !open0) || !GateHolds(env))
  }

  /** Loop i could wait for nothing but the others, and they all wait or have ended: nobody can be
      asked, and no inbox of the session holds a message. */
  ghost predicate NobodyElse(cfg: Config, s: Sys, i: nat) {
    && !s.env.interact
    && (forall j :: 0 <= j < |s.loops| && j != i ==> s.loops[j].loc.Parked? || s.loops[j].loc == Done)
    && (forall a :: a in cfg.agents ==> !HasMail(s.env, a))
  }

  /** Only loop i and what is named changes. */
  ghost predicate OnlyMoves(s: Sys, t: Sys, i: nat) {
    && |t.loops| == |s.loops| && i < |s.loops| && t.env == s.env && t.loops[i].agent == s.loops[i].agent
    && (forall j :: 0 <= j < |s.loops| && j != i ==> t.loops[j] == s.loops[j])
    && (s.deadlock ==> t.deadlock)
  }

  ghost predicate Becomes(s: Sys, t: Sys, i: nat, l: Loop, total: nat) {
    OnlyMoves(s, t, i) && t.loops[i] == l && t.total == total && t.deadlock == s.deadlock
  }

  lemma AllIdle(cfg: Config, s: Sys, i: nat)
    requires Inv(cfg, s) && IsParked(s, i)
    ensures LiveCount(s.loops) > 0
    ensures !s.env.interact && |s.parked| >= LiveCount(s.loops) && AllEmpty(cfg, s.env) <==> NobodyElse(cfg, s, i)
  {
    hide Inv;
    LiveCountPositive(s.loops, i);
    CountsAgree(cfg, s);
  }

  // ---- Polling, and going to sleep --------------------------------------------------------------------

  /** A poll ends the loop when the run is interrupted, closed or out of budget, or a deadlock is
      declared, here or before; a message or a phase or gate that moved wakes it; and otherwise
      nothing changes at all. */
  lemma PollLaw(cfg: Config, s: Sys, i: nat)
    requires Inv(cfg, s) && IsParked(s, i)
    ensures var t, l := Step(cfg, s, Polls(i)), s.loops[i];
            var over := s.env.interrupt || s.env.closed || s.deadlock || BudgetSpent(cfg, s.total);
            var woken := HasMail(s.env, l.agent) || MovedOn(s.env, l.loc.phase0, l.loc.open0);
            var last := NobodyElse(cfg, s, i);
            && OnlyMoves(s, t, i) && t.total == s.total
            && t.loops[i] == l.(loc := if over || (!woken && last) then Done else if woken then Top else l.loc)
            && (t.deadlock <==> s.deadlock || (!over && !woken && last))
  {
    hide Inv;
    AllIdle(cfg, s, i);
    hide NobodyElse, LiveCount, AllEmpty;
  }

  /** A loop that parks notes the phase and the gate as they are, and polls at once. */
  ghost predicate Parks(cfg: Config, s: Sys, t: Sys, i: nat, l: Loop, total: nat)
    requires s.env.proto != None
  {
    var over := s.env.interrupt || s.env.closed || s.deadlock || BudgetSpent(cfg, total);
    var woken, last := HasMail(s.env, l.agent), NobodyElse(cfg, s, i);
    var p := s.env.proto.value;
    && OnlyMoves(s, t, i) && t.total == total
    && t.loops[i].(loc := l.loc) == l
    && t.loops[i].loc == (if over || (!woken && last) then Done else if woken then Top else Parked(p.phase, p.open))
    && (t.deadlock <==> s.deadlock || (!over && !woken && last))
  }

  lemma ParkLaw(cfg: Config, s: Sys, i: nat, l: Loop, total: nat)
    requires Inv(cfg, s) && i < |s.loops| && Live(s.loops[i]) && GateHolds(s.env)
    requires l.agent == s.loops[i].agent && l.retries <= cfg.maxRetries && l.idle <= 1
    ensures Parks(cfg, s, Park(cfg, Move(s.(total := total), i, l), i), i, l, total)
  {
    hide Inv, NobodyElse;
    var s1 := s.(total := total);
    Counted(cfg, s, total);
    var p := s.env.proto.value;
    var asleep := l.(loc := Parked(p.phase, p.open));
    MoveKeeps(cfg, s1, i, asleep);
    var u := Move(s1, i, asleep);
    MovedTo(s1, i, asleep);
    TwiceMoved(s1, i, l, asleep);
    PollLaw(cfg, u, i);
    SameOthersIdle(cfg, s, u, i);
  }

  lemma Counted(cfg: Config, s: Sys, total: nat)
    requires Inv(cfg, s)
    ensures Inv(cfg, s.(total := total))
  {}

  lemma TwiceMoved(s: Sys, i: nat, l: Loop, l': Loop)
    requires i < |s.loops| && s.loops[i].agent == l.agent && l'.loc.Parked? && l == l'.(loc := l.loc)
    ensures Move(s, i, l').loops == Go(Move(s, i, l), i, l'.loc).loops
    ensures !l.loc.Done? ==> Move(s, i, l') == Go(Move(s, i, l), i, l'.loc)
  {}

  lemma SameOthersIdle(cfg: Config, s: Sys, u: Sys, i: nat)
    requires |u.loops| == |s.loops| && u.env == s.env
    requires forall j :: 0 <= j < |s.loops| && j != i ==> u.loops[j] == s.loops[j]
    ensures NobodyElse(cfg, u, i) <==> NobodyElse(cfg, s, i)
  {}

  // ---- The top of the loop -------------------------------------------------------------------------------

  /** At the top a loop ends when interrupted, out of budget or past the protocol's end; parks when the
      gate holds, it has signalled and has no mail; and otherwise calls its model. */
  lemma TurnLaw(cfg: Config, s: Sys, i: nat, signalled: bool)
    requires Inv(cfg, s) && At(s, i, Top)
    ensures var t, l := Step(cfg, s, Turns(i, signalled)), s.loops[i];
            if s.env.interrupt || BudgetSpent(cfg, s.total) || ProtocolOver(cfg, s.env) then
              Becomes(s, t, i, l.(loc := Done), s.total)
            else if GateHolds(s.env) && signalled && !HasMail(s.env, l.agent) then Parks(cfg, s, t, i, l, s.total)
            else Becomes(s, t, i, l.(loc := Stepping), s.total)
  {
    hide Inv, Parks, Park;
    if !s.env.interrupt && !BudgetSpent(cfg, s.total) && !ProtocolOver(cfg, s.env)
       && GateHolds(s.env) && signalled && !HasMail(s.env, s.loops[i].agent) {
      LoopFits(cfg, s, i);
      ParkLaw(cfg, s, i, s.loops[i], s.total);
      NothingMoved(cfg, s, i);
    }
  }

  lemma NothingMoved(cfg: Config, s: Sys, i: nat)
    requires Inv(cfg, s) && i < |s.loops| && s.loops[i].loc == Top
    ensures Move(s.(total := s.total), i, s.loops[i]) == s
  {
    var a := s.loops[i].agent;
    assert s.loops[i := s.loops[i]] == s.loops;
    assert Live(s.loops[i]);
    assert forall j :: 0 <= j < |s.loops| && s.loops[j].loc.Parked? ==> Live(s.loops[j]) && s.loops[j].agent != a;
    assert s.parked - {a} == s.parked;
  }

  // ---- After the model call ---------------------------------------------------------------------------------

  /** A call that fails is tried again exactly when the failure is retryable and retries are left; a
      skipped one is no failure and no step; only a successful step counts against the budget. */
  lemma CallLaw(cfg: Config, s: Sys, i: nat, out: Outcome, nudged: bool)
    requires Inv(cfg, s) && At(s, i, Stepping) && !out.Stepped?
    ensures var t, l := Step(cfg, s, Returns(i, out, nudged)), s.loops[i];
            if out == Ended then Becomes(s, t, i, l.(loc := Done), s.total)
            else if out == Skipped then Becomes(s, t, i, Loop(l.agent, Top, l.idle, 0), s.total)
            else if out.retryable && l.retries < cfg.maxRetries
            then Becomes(s, t, i, Loop(l.agent, Backoff, l.idle, l.retries + 1), s.total)
            else Becomes(s, t, i, l.(loc := Done), s.total)
  {}

  /** After the wait the loop goes on, unless the run was interrupted. */
  lemma RetryLaw(cfg: Config, s: Sys, i: nat)
    requires At(s, i, Backoff)
    ensures Becomes(s, Step(cfg, s, Retries(i)), i,
                    s.loops[i].(loc := if s.env.interrupt then Done else Top), s.total)
  {}

  /** A successful step counts once and clears the retries. The loop goes on at once after tool calls
      or with mail; while the gate holds it goes on after a reminder and parks otherwise; and while
      nothing holds it back it ends when it said nothing, or said something idly twice in a row. */
  lemma StepLaw(cfg: Config, s: Sys, i: nat, toolCalls: bool, drained: bool, text: bool, nudged: bool)
    requires Inv(cfg, s) && At(s, i, Stepping)
    ensures var t, l := Step(cfg, s, Returns(i, Stepped(toolCalls, drained, text), nudged)), s.loops[i];
            var idle := if drained then 0 else l.idle;
            if toolCalls || HasMail(s.env, l.agent) then Becomes(s, t, i, Loop(l.agent, Top, 0, 0), s.total + 1)
            else if GateHolds(s.env) && nudged then Becomes(s, t, i, Loop(l.agent, Top, idle, 0), s.total + 1)
            else if GateHolds(s.env) then Parks(cfg, s, t, i, Loop(l.agent, Stepping, idle, 0), s.total + 1)
            else if !text then Becomes(s, t, i, Loop(l.agent, Done, idle, 0), s.total + 1)
            else Becomes(s, t, i, Loop(l.agent, if idle == 0 then Top else Done, idle + 1, 0), s.total + 1)
  {
    hide Inv, Parks, Park;
    LoopFits(cfg, s, i);
    if GateHolds(s.env) {
      ParkLaw(cfg, s, i, Loop(s.loops[i].agent, Stepping, if drained then 0 else s.loops[i].idle, 0), s.total + 1);
    }
  }

  // ---- Starting ------------------------------------------------------------------------------------------------

  ghost predicate HasLoop(s: Sys, a: Id) {
    exists j :: 0 <= j < |s.loops| && s.loops[j].agent == a && s.loops[j].loc != Done
  }

  /** An agent is started exactly when it has no live loop, with one at the top and no history. */
  lemma StartLaw(cfg: Config, s: Sys, a: Id, e: Event)
    requires Inv(cfg, s) && a in cfg.agents
    requires e == Starts(a) || (e.Joins? && e.agent == a && At(s, e.i, Stepping))
    ensures var t := Step(cfg, s, e);
            && t.total == s.total && t.env == s.env && t.deadlock == s.deadlock && t.parked == s.parked
            && t.loops == (if HasLoop(s, a) then s.loops else s.loops + [Loop(a, Top, 0, 0)])
  {
    if HasLoop(s, a) {
      var j :| 0 <= j < |s.loops| && s.loops[j].agent == a && s.loops[j].loc != Done;
      assert Live(s.loops[j]);
    }
  }
}
