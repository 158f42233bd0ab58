/** Lines the child could not read (fronts/web/src/bff/cmd.ts:169-218). The child says one line for
    each command written to it: its result, or a line with the id "?" when it could not read the
    command. The bus gives a "?" line to the one waiting command, if there is exactly one. */
module Unread {
  import opened Tables
  import opened Cards
  import opened Commands
  import P = BusProtocol

  /** A verdict that the bus gave to command `of` on the line that the child said for `line`. */
  datatype Verdict = Verdict(of: nat, line: nat)

  /** `due`: the commands written for which the child has said nothing yet. `late`: those that timed
      out. These and `verdicts` are bookkeeping for the statements; no step of the bus reads them. */
  datatype Talk = Talk(s: P.Sys, due: set<nat>, late: set<nat>, verdicts: seq<Verdict>)

  datatype Event = Says(line: nat, read: bool, result: CoreResult) | Goes(e: P.Event)

  function Begin(maxUnknown: nat): Talk {
    Talk(P.Start(maxUnknown), {}, {}, [])
  }

  /** The command that the bus takes a line for. */
  function TakenFor(b: Bus, line: nat, read: bool): Option<nat> {
    var waiter := WaiterOf(b, if read then Web(line) else Undecoded);
    if waiter.None? && read && (line in b.unknown.at || line in b.expired.at) then Some(line) else waiter
  }

  function Step(t: Talk, e: Event): Talk
    requires TablesValid(t.s.bus)
  {
    match e
    case Says(line, read, r) =>
      if line !in t.due then t
      else
        var of := TakenFor(t.s.bus, line, read);
        t.(s := P.Step(t.s, P.ResultLine(if read then Web(line) else Undecoded, r)), due := t.due - {line},
           verdicts := t.verdicts + if of.Some? then [Verdict(of.value, line)] else [])
    case Goes(e) =>
      if e.ResultLine? then t
      else
        var s' := P.Step(t.s, e);
        t.(s := s',
           due := if e.ChildExits? then {} else t.due + (s'.bus.inflight.at.Keys - t.s.bus.inflight.at.Keys),
           late := if e.TimeoutFires? && e.id in t.s.bus.inflight.at then t.late + {e.id} else t.late)
  }

  lemma StepValid(t: Talk, e: Event)
    requires TablesValid(t.s.bus)
    ensures TablesValid(Step(t, e).s.bus)
  {
    hide P.Step, TablesValid;
    match e {
      case Says(line, read, r) => P.StepValid(t.s, P.ResultLine(if read then Web(line) else Undecoded, r));
      case Goes(e) => P.StepValid(t.s, e);
    }
  }

  function Run(t: Talk, es: seq<Event>): (r: Talk)
    requires TablesValid(t.s.bus)
    ensures TablesValid(r.s.bus)
    decreases |es|
  {
    if es == [] then t
    else
      var before := Run(t, es[..|es| - 1]);
      StepValid(before, es[|es| - 1]);
      Step(before, es[|es| - 1])
  }

  /** Every verdict was given on the command's own line. */
  ghost predicate Own(verdicts: seq<Verdict>) {
    forall v :: v in verdicts ==> v.of == v.line
  }

  // ---- What holds over every run ----------------------------------------------------------------

  ghost predicate Inv(t: Talk) {
    && P.Inv(t.s)
    && (forall id :: id in t.due || id in t.late || id in t.s.bus.inflight.at ==> id < t.s.bus.next)
    && t.late !! t.s.bus.inflight.at.Keys
    && (Own(t.verdicts) ==> forall id :: id in t.due ==> id in t.s.bus.inflight.at || id in t.late)
  }

  lemma InflightTaken(s: P.Sys)
    requires P.Inv(s)
    ensures TablesValid(s.bus) && forall id :: id in s.bus.inflight.at ==> id < s.bus.next
  {
    forall id | id in s.bus.inflight.at ensures id < s.bus.next { P.KnownAt(s.bus, id); }
  }

  /** A line settles at most the command it is taken for. */
  lemma ResultFrees(s: P.Sys, rid: ResultId, r: CoreResult)
    requires TablesValid(s.bus)
    ensures var t, w := P.Step(s, P.ResultLine(rid, r)), WaiterOf(s.bus, rid);
            && t.bus.next == s.bus.next
            && t.bus.inflight.at.Keys == s.bus.inflight.at.Keys - (if w.Some? then {w.value} else {})
  {
    hide SettleKey;
    var w := WaiterOf(s.bus, rid);
    if w.Some? { assert w.value in s.bus.inflight.order; }
    if w.None? && rid.Web? && rid.n in s.bus.unknown.at {
      SettleTables(s.bus.(unknown := s.bus.unknown.Remove(rid.n)), s.cards, s.bus.unknown.at[rid.n], rid.n, r);
    } else if w.None? && rid.Web? && rid.n in s.bus.expired.at {
      SettleTables(s.bus.(expired := s.bus.expired.Remove(rid.n)), s.cards, s.bus.expired.at[rid.n], rid.n, r);
    }
  }

  lemma SettleTables(b: Bus, c: Cards, key: Option<Key>, id: nat, r: CoreResult)
    ensures var b' := SettleKey(b, c, key, id, r).0; b'.inflight == b.inflight && b'.next == b.next
  {}

  lemma TakesNext(b: Bus, c: Cards, cmd: Command, alive: bool, accepted: bool)
    ensures var out := Judge(b, c, cmd, alive, accepted); out.Waiting? ==> out.id == b.next
  {}

  lemma PostFrees(s: P.Sys, e: P.Event)
    requires TablesValid(s.bus) && e.Post?
    ensures var t := P.Step(s, e);
            && s.bus.next <= t.bus.next
            && (t.bus.inflight.at.Keys == s.bus.inflight.at.Keys
                || t.bus.inflight.at.Keys == s.bus.inflight.at.Keys + {s.bus.next})
  {
    hide Judge;
    TakesNext(s.bus, s.cards, e.cmd, e.alive, e.accepted);
  }

  lemma TombstoneFrees(b: Bus, id: nat, key: Option<Key>, maxUnknown: nat)
    requires b.expired.Valid()
    ensures var t := Tombstone(b, id, key, maxUnknown); t.inflight == b.inflight && t.next == b.next
  {}

  lemma TimeoutFrees(s: P.Sys, e: P.Event)
    requires TablesValid(s.bus) && e.TimeoutFires?
    ensures var t := P.Step(s, e);
            && t.bus.next == s.bus.next && t.bus.inflight.at.Keys == s.bus.inflight.at.Keys - {e.id}
  {
    hide Tombstone;
    if e.id in s.bus.inflight.at {
      var b := s.bus.(inflight := s.bus.inflight.Remove(e.id));
      var victim := if |b.unknown.order| >= s.maxUnknown then FirstKeyless(b.unknown.order, b.unknown.at) else None;
      if victim.Some? {
        TombstoneFrees(b.(unknown := b.unknown.Remove(victim.value)), victim.value, None, s.maxUnknown);
      }
    }
  }

  lemma ResumeFrees(s: P.Sys, e: P.Event)
    requires TablesValid(s.bus) && e.Resumes?
    ensures var t := P.Step(s, e); t.bus.next == s.bus.next && t.bus.inflight == s.bus.inflight
  {
    hide SettleKey;
    if e.id in s.bus.answered.at {
      var a := s.bus.answered.at[e.id];
      SettleTables(s.bus.(answered := s.bus.answered.Remove(e.id)), s.cards, a.key, e.id, a.result);
    }
  }

  lemma UnknownFrees(s: P.Sys, e: P.Event)
    requires TablesValid(s.bus) && e.UnknownFires?
    ensures var t := P.Step(s, e); t.bus.next == s.bus.next && t.bus.inflight == s.bus.inflight
  {
    hide Tombstone;
    if e.id in s.bus.unknown.at {
      TombstoneFrees(s.bus.(unknown := s.bus.unknown.Remove(e.id)), e.id, s.bus.unknown.at[e.id], s.maxUnknown);
    }
  }

  lemma ExitFrees(s: P.Sys)
    requires TablesValid(s.bus)
    ensures var t := P.Step(s, P.ChildExits); t.bus.next == s.bus.next && t.bus.inflight.at.Keys == {}
  {
    hide Reopen;
  }

  lemma CardsFree(s: P.Sys, e: P.Event)
    requires TablesValid(s.bus)
    requires e.QuestionAsked? || e.ApprovalRequested? || e.ApprovalGone? || e.SessionStarts? || e.SessionEnds?
    ensures P.Step(s, e).bus == s.bus
  {
    hide Ask, Request, Gone;
  }

  /** What the other steps do to the waiting commands. */
  lemma GoesFrees(s: P.Sys, e: P.Event)
    requires TablesValid(s.bus) && !e.ResultLine?
    ensures var t := P.Step(s, e);
            && s.bus.next <= t.bus.next
            && (e.ChildExits? ==> t.bus.inflight.at.Keys == {})
            && (e.TimeoutFires? ==> t.bus.inflight.at.Keys == s.bus.inflight.at.Keys - {e.id})
            && (e.Post? ==> t.bus.inflight.at.Keys == s.bus.inflight.at.Keys
                            || t.bus.inflight.at.Keys == s.bus.inflight.at.Keys + {s.bus.next})
            && (!e.ChildExits? && !e.TimeoutFires? && !e.Post? ==> t.bus.inflight == s.bus.inflight)
  {
    hide P.Step, TablesValid;
    match e {
      case Post(_, _, _) => PostFrees(s, e);
      case Resumes(_) => ResumeFrees(s, e);
      case TimeoutFires(_) => TimeoutFrees(s, e);
      case UnknownFires(_) => UnknownFrees(s, e);
      case ChildExits => ExitFrees(s);
      case _ => CardsFree(s, e);
    }
  }

  lemma SaysKeeps(t: Talk, line: nat, read: bool, r: CoreResult)
    requires Inv(t)
    ensures TablesValid(t.s.bus) && Inv(Step(t, Says(line, read, r)))
  {
    hide P.Inv, P.Step, TablesValid;
    InflightTaken(t.s);
    if line in t.due {
      var rid := if read then Web(line) else Undecoded;
      P.StepKeeps(t.s, P.ResultLine(rid, r));
      ResultFrees(t.s, rid, r);
      var t' := Step(t, Says(line, read, r));
      if Own(t'.verdicts) {
        assert forall v :: v in t.verdicts ==> v in t'.verdicts;
        var of := TakenFor(t.s.bus, line, read);
        if of.Some? { assert Verdict(of.value, line) in t'.verdicts; }
      }
    }
  }

  lemma GoesKeeps(t: Talk, e: P.Event)
    requires Inv(t)
    ensures TablesValid(t.s.bus) && Inv(Step(t, Goes(e)))
  {
    hide P.Inv, P.Step, TablesValid;
    InflightTaken(t.s);
    if !e.ResultLine? {
      P.StepKeeps(t.s, e);
      GoesFrees(t.s, e);
      InflightTaken(P.Step(t.s, e));
    }
  }

  lemma {:induction false} RunKeeps(maxUnknown: nat, es: seq<Event>)
    ensures Inv(Run(Begin(maxUnknown), es))
    decreases |es|
  {
    hide Inv, Step;
    if es == [] {
      BeginHolds(maxUnknown);
    } else {
      var before, e := Run(Begin(maxUnknown), es[..|es| - 1]), es[|es| - 1];
      RunKeeps(maxUnknown, es[..|es| - 1]);
      if e.Says? { SaysKeeps(before, e.line, e.read, e.result); } else { GoesKeeps(before, e.e); }
    }
  }

  lemma BeginHolds(maxUnknown: nat)
    ensures Inv(Begin(maxUnknown))
  {
    P.StartInv(maxUnknown);
  }

  // ---- Whose line it is ----------------------------------------------------------------------------

  /** One command is waiting. */
  predicate OneWaits(b: Bus) {
    |b.inflight.order| == 1
  }

  lemma OneWaiter(b: Bus)
    requires b.inflight.Valid() && OneWaits(b)
    ensures b.inflight.at.Keys == {b.inflight.order[0]}
  {}

  /** As long as every verdict was the command's own: with one command waiting, a "?" line can only
      be that command's exactly when the child has said its line for every command that timed out. */
  lemma OnlyTheWaiterIff(maxUnknown: nat, es: seq<Event>)
    requires var t := Run(Begin(maxUnknown), es); Own(t.verdicts) && OneWaits(t.s.bus)
    ensures var t := Run(Begin(maxUnknown), es);
            (forall line :: line in t.due ==> TakenFor(t.s.bus, line, false) == Some(line)) <==> t.due !! t.late
  {
    var t := Run(Begin(maxUnknown), es);
    RunKeeps(maxUnknown, es);
    hide Run, P.Inv;
    OneWaiter(t.s.bus);
  }

  /** A "?" line that is taken for a command is not that of one that timed out. */
  ghost predicate Fits(t: Talk, e: Event) {
    e.Says? && !e.read && e.line in t.due && OneWaits(t.s.bus) ==> e.line !in t.late
  }

  ghost predicate AllFit(t: Talk, es: seq<Event>)
    requires TablesValid(t.s.bus)
  {
    forall i :: 0 <= i < |es| ==> Fits(Run(t, es[..i]), es[i])
  }

  /** Over every run, all verdicts are the commands' own if and only if no "?" line for a command
      that had timed out came while exactly one other was waiting. */
  lemma {:induction false} VerdictsAreOwnIff(maxUnknown: nat, es: seq<Event>)
    ensures Own(Run(Begin(maxUnknown), es).verdicts) <==> AllFit(Begin(maxUnknown), es)
    decreases |es|
  {
    hide Step, Fits;
    if es != [] {
      var front, e := es[..|es| - 1], es[|es| - 1];
      assert es == front + [e] && forall i :: 0 <= i < |front| ==> es[..i] == front[..i] && es[i] == front[i];
      VerdictsAreOwnIff(maxUnknown, front);
      RunKeeps(maxUnknown, front);
      OwnStep(Run(Begin(maxUnknown), front), e);
      assert AllFit(Begin(maxUnknown), es)
             <==> AllFit(Begin(maxUnknown), front) && Fits(Run(Begin(maxUnknown), front), e);
    }
  }

  lemma OwnStep(t: Talk, e: Event)
    requires Inv(t) && TablesValid(t.s.bus)
    ensures Own(Step(t, e).verdicts) <==> Own(t.verdicts) && Fits(t, e)
  {
    hide P.Inv, P.Step;
    var t' := Step(t, e);
    assert forall v :: v in t.verdicts ==> v in t'.verdicts;
    if e.Says? && e.line in t.due {
      var of := TakenFor(t.s.bus, e.line, e.read);
      if of.Some? { assert Verdict(of.value, e.line) in t'.verdicts; }
      if OneWaits(t.s.bus) { OneWaiter(t.s.bus); }
    }
  }

  /** Without timeouts every verdict is the command's own. */
  lemma {:induction false} NoTimeoutNoMixUp(maxUnknown: nat, es: seq<Event>)
    requires forall e :: e in es ==> !(e.Goes? && e.e.TimeoutFires?)
    ensures Own(Run(Begin(maxUnknown), es).verdicts) && Run(Begin(maxUnknown), es).late == {}
    decreases |es|
  {
    hide P.Step;
    if es != [] {
      var front, e := es[..|es| - 1], es[|es| - 1];
      assert e in es && forall x :: x in front ==> x in es;
      NoTimeoutNoMixUp(maxUnknown, front);
      RunKeeps(maxUnknown, front);
      OwnStep(Run(Begin(maxUnknown), front), e);
    }
  }

  // ---- A card answered twice -------------------------------------------------------------------------

  /** A command with no card, and the answer to a question. */
  const KEYLESS := Command(true, true, Nothing, None, None)

  function Answering(q: string): Command {
    Command(true, true, AQuestion, Some(Q(q)), None)
  }

  lemma Extend(start: Talk, es: seq<Event>, t: Talk, e: Event) returns (es': seq<Event>, t': Talk)
    requires TablesValid(start.s.bus) && t == Run(start, es)
    ensures es' == es + [e] && TablesValid(t.s.bus) && t' == Step(t, e) == Run(start, es') && TablesValid(t'.s.bus)
  {
    hide Step;
    es', t' := es + [e], Step(t, e);
    assert es'[..|es|] == es;
    StepValid(t, e);
  }

  /** The bus after a keyless command has timed out, with question q pending. */
  ghost predicate Ready(t: Talk, q: string) {
    && t.s.bus == Bus(2, Empty(), Empty(), Table([1], map[1 := None]), Empty(), map[])
    && Pending(t.s.cards, Q(q)) && !Resolving(t.s.cards, Q(q)) && t.due == {1} && t.verdicts == []
  }

  lemma KeylessSent(maxUnknown: nat) returns (t: Talk)
    ensures t == Step(Begin(maxUnknown), Goes(P.Post(KEYLESS, true, true)))
    ensures t.s.bus == Bus(2, Table([1], map[1 := None]), Empty(), Empty(), Empty(), map[])
    ensures t.due == {1} && t.verdicts == [] && t.s.cards == NO_CARDS
  {
    t := Step(Begin(maxUnknown), Goes(P.Post(KEYLESS, true, true)));
  }

  lemma KeylessTimesOut(t: Talk) returns (t': Talk)
    requires t.s.bus == Bus(2, Table([1], map[1 := None]), Empty(), Empty(), Empty(), map[])
    requires TablesValid(t.s.bus) && t.due == {1} && t.verdicts == []
    ensures t' == Step(t, Goes(P.TimeoutFires(1)))
    ensures t'.s.bus == Bus(2, Empty(), Empty(), Table([1], map[1 := None]), Empty(), map[])
    ensures t'.due == {1} && t'.verdicts == [] && t'.s.cards == t.s.cards
  {
    t' := Step(t, Goes(P.TimeoutFires(1)));
  }

  lemma QuestionComes(t: Talk, q: string, text: string) returns (t': Talk)
    requires t.s.bus == Bus(2, Empty(), Empty(), Table([1], map[1 := None]), Empty(), map[])
    requires TablesValid(t.s.bus) && t.due == {1} && t.verdicts == [] && t.s.cards == NO_CARDS && q != ""
    ensures t' == Step(t, Goes(P.QuestionAsked(q, text))) && Ready(t', q)
  {
    t' := Step(t, Goes(P.QuestionAsked(q, text)));
  }

  lemma ReadyRun(maxUnknown: nat, q: string, text: string) returns (es: seq<Event>, t: Talk)
    requires q != ""
    ensures t == Run(Begin(maxUnknown), es) && TablesValid(t.s.bus) && Ready(t, q)
  {
    hide Run, Step, Ready;
    BeginsThere(maxUnknown);
    var t1 := KeylessSent(maxUnknown);
    es, t := Extend(Begin(maxUnknown), [], Begin(maxUnknown), Goes(P.Post(KEYLESS, true, true)));
    t1 := KeylessTimesOut(t);
    es, t := Extend(Begin(maxUnknown), es, t, Goes(P.TimeoutFires(1)));
    t1 := QuestionComes(t, q, text);
    es, t := Extend(Begin(maxUnknown), es, t, Goes(P.QuestionAsked(q, text)));
  }

  lemma BeginsThere(maxUnknown: nat)
    ensures Run(Begin(maxUnknown), []) == Begin(maxUnknown)
  {}

  lemma AnswerSent(t: Talk, q: string) returns (t': Talk)
    requires TablesValid(t.s.bus) && Ready(t, q)
    ensures t' == Step(t, Goes(P.Post(Answering(q), true, true)))
    ensures t'.s.bus == Bus(3, Table([2], map[2 := Some(Q(q))]), Empty(), t.s.bus.unknown, Empty(), map[Q(q) := 2])
    ensures t'.due == {1, 2} && t'.verdicts == [] && Pending(t'.s.cards, Q(q))
    ensures 2 in t'.s.h.answers && t'.s.h.answers[2] == (Q(q), P.Born(t.s.h, Q(q))) && t'.s.h.born == t.s.h.born
  {
    t' := Step(t, Goes(P.Post(Answering(q), true, true)));
  }

  lemma TakenForOther(t: Talk, q: string, r: CoreResult) returns (t': Talk)
    requires TablesValid(t.s.bus) && t.due == {1, 2} && t.verdicts == [] && Pending(t.s.cards, Q(q))
    requires t.s.bus.next == 3 && t.s.bus.inflight == Table([2], map[2 := Some(Q(q))])
    requires t.s.bus.answered == Empty() && t.s.bus.owner == map[Q(q) := 2]
    ensures t' == Step(t, Says(1, false, r))
    ensures t'.s.bus.inflight == Empty() && t'.s.bus.answered == Table([2], map[2 := Answer(Some(Q(q)), r)])
    ensures t'.s.bus.owner == t.s.bus.owner && t'.s.bus.next == 3
    ensures t'.due == {2} && t'.verdicts == [Verdict(2, 1)] && t'.s.cards == t.s.cards && t'.s.h == t.s.h
  {
    t' := Step(t, Says(1, false, r));
  }

  lemma HandlerResumes(t: Talk, q: string, r: CoreResult) returns (t': Talk)
    requires TablesValid(t.s.bus) && Pending(t.s.cards, Q(q)) && !Drops(r)
    requires t.s.bus.inflight == Empty() && t.s.bus.answered == Table([2], map[2 := Answer(Some(Q(q)), r)])
    requires t.s.bus.owner == map[Q(q) := 2]
    ensures t' == Step(t, Goes(P.Resumes(2)))
    ensures t'.s.bus.inflight == Empty() && t'.s.bus.next == t.s.bus.next
    ensures t'.due == t.due && t'.verdicts == t.verdicts
    ensures t'.s.h.answers == t.s.h.answers && t'.s.h.born == t.s.h.born
    ensures Pending(t'.s.cards, Q(q)) && !Resolving(t'.s.cards, Q(q))
  {
    t' := Step(t, Goes(P.Resumes(2)));
  }

  lemma AnswerAgain(t: Talk, q: string) returns (t': Talk)
    requires TablesValid(t.s.bus) && Pending(t.s.cards, Q(q)) && !Resolving(t.s.cards, Q(q))
    requires t.s.bus.inflight == Empty() && t.s.bus.next == 3
    ensures t' == Step(t, Goes(P.Post(Answering(q), true, true)))
    ensures t'.due == t.due + {3} && t'.verdicts == t.verdicts && t'.s.bus.inflight == Table([3], map[3 := Some(Q(q))])
    ensures t'.s.h.answers == t.s.h.answers[3 := (Q(q), P.Born(t.s.h, Q(q)))] && t'.s.h.born == t.s.h.born
  {
    t' := Step(t, Goes(P.Post(Answering(q), true, true)));
  }

  /** What a mix-up leads to: after a command without a card timed out, the child cannot read it, and
      its "?" line is taken for the answer to question q. The card is answerable again, and a second
      answer is accepted, while the child has yet to read the first: both are for the same card. */
  lemma MixUpAnswersTwice(maxUnknown: nat, q: string, text: string, r: CoreResult) returns (es: seq<Event>, t: Talk)
    requires q != "" && !Drops(r)
    ensures t == Run(Begin(maxUnknown), es)
    ensures t.verdicts == [Verdict(2, 1)] && t.due == {2, 3}
    ensures 2 in t.s.h.answers && 3 in t.s.h.answers && t.s.h.answers[2] == t.s.h.answers[3]
    ensures t.s.h.answers[3] == (Q(q), P.Born(t.s.h, Q(q))) && 3 in t.s.bus.inflight.at
  {
    hide Step, Run;
    es, t := ReadyRun(maxUnknown, q, text);
    var t1 := AnswerSent(t, q);
    es, t := Extend(Begin(maxUnknown), es, t, Goes(P.Post(Answering(q), true, true)));
    t1 := TakenForOther(t, q, r);
    es, t := Extend(Begin(maxUnknown), es, t, Says(1, false, r));
    t1 := HandlerResumes(t, q, r);
    es, t := Extend(Begin(maxUnknown), es, t, Goes(P.Resumes(2)));
    t1 := AnswerAgain(t, q);
    es, t := Extend(Begin(maxUnknown), es, t, Goes(P.Post(Answering(q), true, true)));
  }
}
