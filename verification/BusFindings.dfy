/** Where the bus keeps its promises only under a condition, and what an
    approval revision stands for over a run. */
module BusFindings {
  import opened Tables
  import opened Cards
  import opened Commands
  import opened BusProtocol
  import StableJson

  lemma RunCons(s: Sys, e: Event, es: seq<Event>)
    requires TablesValid(s.bus)
    ensures TablesValid(Step(s, e).bus) && Run(s, [e] + es) == Run(Step(s, e), es)
  {
    StepValid(s, e);
    assert ([e] + es)[1..] == es;
  }

  // ---- The tombstone bound ------------------------------------------------------------------

  /** A card that waits for a command nobody remembers. */
  ghost predicate Orphaned(s: Sys, k: Key) {
    Resolving(s.cards, k) && k !in s.bus.owner
  }

  ghost predicate OrphanedAfter(maxUnknown: nat, es: seq<Event>, k: Key) {
    Orphaned(Run(Start(maxUnknown), es), k)
  }

  const ANSWER_Q := Command(true, true, AQuestion, Some(Q("q")), None)

  /** The question "q" pending, and the states in which it waits for its only answer. */
  function OrphaningBus(k: nat): Bus {
    var key := Some(Q("q"));
    match k
    case 0 => FRESH_BUS
    case 1 => Bus(2, Table([1], map[1 := key]), Empty(), Empty(), Empty(), map[Q("q") := 1])
    case 2 => Bus(2, Empty(), Empty(), Table([1], map[1 := key]), Empty(), map[Q("q") := 1])
    case _ => Bus(2, Empty(), Empty(), Empty(), Empty(), map[])
  }

  lemma OrphaningPost(s: Sys)
    requires s.bus == OrphaningBus(0) && Pending(s.cards, Q("q")) && !Resolving(s.cards, Q("q"))
    ensures TablesValid(s.bus)
    ensures var t := Step(s, Post(ANSWER_Q, true, true));
            t.bus == OrphaningBus(1) && Resolving(t.cards, Q("q")) && t.maxUnknown == s.maxUnknown
  {}

  lemma OrphaningTimeout(s: Sys)
    requires s.bus == OrphaningBus(1) && s.maxUnknown == 0
    ensures TablesValid(s.bus)
    ensures var t := Step(s, TimeoutFires(1));
            t.bus == OrphaningBus(2) && t.cards == s.cards && t.maxUnknown == s.maxUnknown
  {}

  lemma OrphaningTimer(s: Sys)
    requires s.bus == OrphaningBus(2) && s.maxUnknown == 0
    ensures TablesValid(s.bus)
    ensures var t := Step(s, UnknownFires(1)); t.bus == OrphaningBus(3) && t.cards == s.cards
  {}

  lemma OrphaningSteps() returns (s1: Sys, s2: Sys, s3: Sys, s4: Sys)
    ensures s1 == Step(Start(0), QuestionAsked("q", "?"))
    ensures TablesValid(s1.bus) && s2 == Step(s1, Post(ANSWER_Q, true, true))
    ensures TablesValid(s2.bus) && s3 == Step(s2, TimeoutFires(1))
    ensures TablesValid(s3.bus) && s4 == Step(s3, UnknownFires(1)) && TablesValid(s4.bus)
    ensures Orphaned(s4, Q("q"))
  {
    s1 := Step(Start(0), QuestionAsked("q", "?"));
    hide Step;
    OrphaningPost(s1);
    s2 := Step(s1, Post(ANSWER_Q, true, true));
    OrphaningTimeout(s2);
    s3 := Step(s2, TimeoutFires(1));
    OrphaningTimer(s3);
    s4 := Step(s3, UnknownFires(1));
    StepValid(s3, UnknownFires(1));
  }

  /** With no room for tombstones, a timed-out answer orphans its card. */
  lemma NoTombstonesOrphanACard() returns (es: seq<Event>)
    ensures Orphaned(Run(Start(0), es), Q("q"))
  {
    hide Step;
    var s1, s2, s3, s4 := OrphaningSteps();
    es := [QuestionAsked("q", "?")] + ([Post(ANSWER_Q, true, true)] + ([TimeoutFires(1)] + ([UnknownFires(1)] + [])));
    RunCons(s3, UnknownFires(1), []);
    RunCons(s2, TimeoutFires(1), [UnknownFires(1)] + []);
    RunCons(s1, Post(ANSWER_Q, true, true), [TimeoutFires(1)] + ([UnknownFires(1)] + []));
    RunCons(Start(0), QuestionAsked("q", "?"),
            [Post(ANSWER_Q, true, true)] + ([TimeoutFires(1)] + ([UnknownFires(1)] + [])));
  }

  lemma SettleAside(b: Bus, c: Cards, key: Option<Key>, n: nat, r: CoreResult, k: Key)
    requires k !in b.owner && Resolving(c, k)
    ensures var (b', c', _) := SettleKey(b, c, key, n, r); k !in b'.owner && Resolving(c', k)
  {}

  lemma RememberAside(b: Bus, n: nat, key: Option<Key>, maxUnknown: nat, k: Key)
    requires b.expired.Valid() && k !in b.owner
    ensures k !in RememberUnknown(b, n, key, maxUnknown).owner
  {}

  lemma PostAside(s: Sys, e: Event, k: Key)
    requires TablesValid(s.bus) && Orphaned(s, k) && e.Post?
    ensures Orphaned(Step(s, e), k)
  {
    assert Pending(s.cards, k);
  }

  lemma ResultAside(s: Sys, e: Event, k: Key)
    requires TablesValid(s.bus) && Orphaned(s, k) && e.ResultLine?
    ensures Orphaned(Step(s, e), k)
  {
    hide SettleKey, Pending, Resolving;
    if WaiterOf(s.bus, e.rid).None? && e.rid.Web? {
      var n := e.rid.n;
      if n in s.bus.unknown.at {
        SettleAside(s.bus.(unknown := s.bus.unknown.Remove(n)), s.cards, s.bus.unknown.at[n], n, e.result, k);
      } else if n in s.bus.expired.at {
        SettleAside(s.bus.(expired := s.bus.expired.Remove(n)), s.cards, s.bus.expired.at[n], n, e.result, k);
      }
    }
  }

  lemma ResumeAside(s: Sys, n: nat, k: Key)
    requires TablesValid(s.bus) && Orphaned(s, k)
    ensures Orphaned(Step(s, Resumes(n)), k)
  {
    hide SettleKey, Pending, Resolving;
    if n in s.bus.answered.at {
      var a := s.bus.answered.at[n];
      SettleAside(s.bus.(answered := s.bus.answered.Remove(n)), s.cards, a.key, n, a.result, k);
    }
  }

  lemma TimeoutAside(s: Sys, n: nat, k: Key)
    requires TablesValid(s.bus) && Orphaned(s, k)
    ensures Orphaned(Step(s, TimeoutFires(n)), k)
  {
    hide RememberUnknown, Pending, Resolving;
    if n in s.bus.inflight.at {
      RememberAside(s.bus.(inflight := s.bus.inflight.Remove(n)), n, s.bus.inflight.at[n], s.maxUnknown, k);
    }
  }

  lemma TimerAside(s: Sys, n: nat, k: Key)
    requires TablesValid(s.bus) && Orphaned(s, k)
    ensures Orphaned(Step(s, UnknownFires(n)), k)
  {}

  lemma CardEventAside(s: Sys, e: Event, id: string)
    requires TablesValid(s.bus) && Orphaned(s, Q(id))
    requires e.QuestionAsked? || e.ApprovalRequested? || e.ApprovalGone? || e.SessionStarts?
    ensures Orphaned(Step(s, e), Q(id))
  {}

  /** No command step ever frees an orphaned question: only the end of the session or of the
      child takes it away. */
  lemma OrphanedQuestionStays(s: Sys, id: string, e: Event)
    requires TablesValid(s.bus) && Orphaned(s, Q(id))
    requires !e.SessionEnds? && !e.ChildExits?
    ensures Orphaned(Step(s, e), Q(id))
  {
    hide Step, Orphaned;
    match e
    case Post(_, _, _) => PostAside(s, e, Q(id));
    case ResultLine(_, _) => ResultAside(s, e, Q(id));
    case Resumes(n) => ResumeAside(s, n, Q(id));
    case TimeoutFires(n) => TimeoutAside(s, n, Q(id));
    case UnknownFires(n) => TimerAside(s, n, Q(id));
    case _ => CardEventAside(s, e, id);
  }

  /** No run leaves a card waiting for a forgotten command, exactly when at least one tombstone fits. */
  lemma TombstonesMustFit(maxUnknown: nat)
    ensures (forall es, k :: !OrphanedAfter(maxUnknown, es, k)) <==> maxUnknown >= 1
  {
    if maxUnknown >= 1 {
      forall es, k ensures !OrphanedAfter(maxUnknown, es, k) {
        NoCardIsEverStuck(maxUnknown, es);
      }
    } else {
      var es := NoTombstonesOrphanACard();
      assert OrphanedAfter(maxUnknown, es, Q("q"));
    }
  }

  // ---- Verdicts and re-created cards -----------------------------------------------------------

  /** When an answered command's verdict changes a card: exactly when it still owns a pending
      key and either drops it or finds it being answered. If the card is the incarnation the
      command saw, that is when it owns the key; if it is a later one, when in addition the
      verdict drops the card. */
  lemma VerdictTouchesCardIff(s: Sys, id: nat, k: Key)
    requires Inv(s) && id in s.bus.answered.at && s.bus.answered.at[id].key == Some(k) && Pending(s.cards, k)
    ensures id in s.h.answers
    ensures Step(s, Resumes(id)).cards != s.cards <==>
              k in s.bus.owner && s.bus.owner[k] == id && (Drops(s.bus.answered.at[id].result) || Resolving(s.cards, k))
    ensures s.maxUnknown >= 1 ==> (Step(s, Resumes(id)).cards != s.cards <==>
              && k in s.bus.owner && s.bus.owner[k] == id
              && (s.h.answers[id] == (k, Born(s.h, k)) || Drops(s.bus.answered.at[id].result)))
  {
    hide Step, Inv;
    AnsweredIsOutstanding(s, id, k);
    VerdictChangesIff(s, id, k);
    if k in s.bus.owner && s.bus.owner[k] == id { ShownWhenCurrent(s, id, k); }
  }

  lemma AnsweredIsOutstanding(s: Sys, id: nat, k: Key)
    requires Inv(s) && id in s.bus.answered.at && s.bus.answered.at[id].key == Some(k)
    ensures TablesValid(s.bus) && id in Outstanding(s.bus) && Outstanding(s.bus)[id] == Some(k) && id in s.h.answers
  {
    KnownAt(s.bus, id);
  }

  lemma VerdictChangesIff(s: Sys, id: nat, k: Key)
    requires TablesValid(s.bus) && Pending(s.cards, k)
    requires id in s.bus.answered.at && s.bus.answered.at[id].key == Some(k)
    ensures Step(s, Resumes(id)).cards != s.cards <==>
              k in s.bus.owner && s.bus.owner[k] == id && (Drops(s.bus.answered.at[id].result) || Resolving(s.cards, k))
  {
    hide SettleKey;
    SettleChanges(s.bus.(answered := s.bus.answered.Remove(id)), s.cards, k, id, s.bus.answered.at[id].result);
  }

  lemma ShownWhenCurrent(s: Sys, id: nat, k: Key)
    requires Inv(s) && id in Outstanding(s.bus) && Outstanding(s.bus)[id] == Some(k) && Pending(s.cards, k)
    requires k in s.bus.owner && s.bus.owner[k] == id
    ensures id in s.h.answers && s.h.answers[id].0 == k
    ensures s.maxUnknown >= 1 ==> (Resolving(s.cards, k) <==> s.h.answers[id] == (k, Born(s.h, k)))
  {
    var o := Outstanding(s.bus);
    assert s.h.answers[id] == (k, Born(s.h, k)) ==> Current(o, s.cards, s.h, id);
  }

  lemma SettleChanges(b: Bus, c: Cards, k: Key, id: nat, r: CoreResult)
    requires Pending(c, k)
    ensures SettleKey(b, c, Some(k), id, r).1 != c <==>
              k in b.owner && b.owner[k] == id && (Drops(r) || Resolving(c, k))
  {
    ReleaseOnly(c, k);
    SetResolvingOnly(c, k, false);
    if !Resolving(c, k) {
      assert k.A? ==> c.approvals[k.id := c.approvals[k.id].(resolving := false)] == c.approvals;
      assert k.Q? ==> c.questions[k.id := c.questions[k.id].(resolving := false)] == c.questions;
    }
  }

  const FINE := CoreResult(Bool(true), Absent, Absent, Absent, Absent)

  /** An answer to an approval at the revision the tab saw. */
  function Approve(id: string, rev: nat): Command {
    Command(true, true, AnApproval, Some(A(id)), Some(rev))
  }

  lemma {:induction false} RunSnoc(s: Sys, es: seq<Event>, e: Event)
    requires TablesValid(s.bus)
    ensures Run(s, es + [e]) == Step(Run(s, es), e)
    decreases |es|
  {
    hide Step;
    if es == [] {
      assert [] + [e] == [e] + [];
      RunCons(s, e, []);
    } else {
      assert (es + [e])[1..] == es[1..] + [e] && (es + [e])[0] == es[0];
      StepValid(s, es[0]);
      RunSnoc(Step(s, es[0]), es[1..], e);
    }
  }

  /** Approval `id` pending at a revision, answerable or not, and everything else untouched since `s`. */
  ghost predicate Shows(s: Sys, t: Sys, id: string, rev: nat, mark: Print, resolving: bool) {
    && id in t.cards.approvals && t.cards.approvals[id].revision == rev && t.cards.approvals[id].resolving == resolving
    && id in t.cards.prints && t.cards.prints[id] == mark
    && ClosedForAnswers(t.cards) == ClosedForAnswers(s.cards) && t.maxUnknown == s.maxUnknown
  }

  /** Requesting an approval that is not pending: a new incarnation at revision 1, answerable. */
  lemma RequestShows(s: Sys, e: Event)
    requires TablesValid(s.bus) && e.ApprovalRequested? && e.aid != "" && !ClosedForAnswers(s.cards)
    requires e.aid !in s.cards.approvals
    ensures var t := Step(s, e);
            && Shows(s, t, e.aid, 1, StableJson.StableJson(ContentOf(e.tool, e.args)), false)
            && t.bus == s.bus && t.h == s.h.(born := s.h.born[A(e.aid) := Born(s.h, A(e.aid)) + 1])
  {}

  /** Requesting it again with other content raises the revision. */
  lemma ChangeShows(s: Sys, e: Event)
    requires TablesValid(s.bus) && e.ApprovalRequested? && e.aid != "" && !ClosedForAnswers(s.cards)
    requires e.aid in s.cards.approvals && e.aid in s.cards.prints && !s.cards.approvals[e.aid].resolving
    requires s.cards.prints[e.aid] != StableJson.StableJson(ContentOf(e.tool, e.args))
    ensures var t, rev := Step(s, e), s.cards.approvals[e.aid].revision;
            && Shows(s, t, e.aid, rev + 1, StableJson.StableJson(ContentOf(e.tool, e.args)), false)
            && t.bus == s.bus && t.h == s.h
  {}

  lemma GoneShows(s: Sys, id: string)
    requires TablesValid(s.bus)
    ensures var t := Step(s, ApprovalGone(id));
            && id !in t.cards.approvals && t.bus == s.bus && t.h == s.h && t.maxUnknown == s.maxUnknown
            && ClosedForAnswers(t.cards) == ClosedForAnswers(s.cards)
  {}

  lemma ApproveShows(s: Sys, id: string)
    requires s.bus == FRESH_BUS && id in s.cards.approvals && id in s.cards.prints
    requires !s.cards.approvals[id].resolving
    ensures TablesValid(s.bus)
    ensures var rev := s.cards.approvals[id].revision;
            var t := Step(s, Post(Approve(id, rev), true, true));
            && Shows(s, t, id, rev, s.cards.prints[id], true)
            && t.bus == Bus(2, Table([1], map[1 := Some(A(id))]), Empty(), Empty(), Empty(), map[A(id) := 1])
            && t.h == s.h.(sent := s.h.sent + [1], answers := s.h.answers[1 := (A(id), Born(s.h, A(id)))])
  {}

  lemma FineShows(s: Sys, id: string)
    requires s.bus == Bus(2, Table([1], map[1 := Some(A(id))]), Empty(), Empty(), Empty(), map[A(id) := 1])
    ensures TablesValid(s.bus)
    ensures var t := Step(s, ResultLine(Web(1), FINE));
            && t.bus == Bus(2, Empty(), Table([1], map[1 := Answer(Some(A(id)), FINE)]), Empty(), Empty(),
                            map[A(id) := 1])
            && t.cards == s.cards && t.h == s.h && t.maxUnknown == s.maxUnknown
  {
    assert map[1 := Some(A(id))] - {1} == map[];
  }

  lemma ResumeDrops(s: Sys, id: string)
    requires s.bus == Bus(2, Empty(), Table([1], map[1 := Answer(Some(A(id)), FINE)]), Empty(), Empty(),
                          map[A(id) := 1])
    ensures TablesValid(s.bus) && !Pending(Step(s, Resumes(1)).cards, A(id))
  {}

  /** An approval that was resolved elsewhere and issued again under the same id is dropped by
      the success of the answer to its former incarnation, though nobody answered the new one. */
  lemma VerdictDropsARecreatedCard(ask: Event) returns (es: seq<Event>, s: Sys)
    requires ask.ApprovalRequested? && ask.aid != ""
    ensures s == Run(Start(1), es)
    ensures 1 in s.bus.answered.at && 1 in s.h.answers && s.h.answers[1] == (A(ask.aid), 1)
    ensures Pending(s.cards, A(ask.aid)) && !Resolving(s.cards, A(ask.aid)) && Born(s.h, A(ask.aid)) == 2
    ensures !Pending(Step(s, Resumes(1)).cards, A(ask.aid))
  {
    hide Step, Run;
    var id := ask.aid;
    StartIs();
    es, s := Reach(Start(1), [], Start(1), ask);
    RequestShows(Start(1), ask);
    ApproveShows(s, id);
    es, s := Reach(Start(1), es, s, Post(Approve(id, 1), true, true));
    FineShows(s, id);
    es, s := Reach(Start(1), es, s, ResultLine(Web(1), FINE));
    GoneShows(s, id);
    es, s := Reach(Start(1), es, s, ApprovalGone(id));
    RequestShows(s, ask);
    es, s := Reach(Start(1), es, s, ask);
    ResumeDrops(s, id);
  }

  lemma StartIs()
    ensures TablesValid(Start(1).bus) && Run(Start(1), []) == Start(1) && Start(1).bus == FRESH_BUS
    ensures Start(1).cards == NO_CARDS && Start(1).h == History(map[], map[], [], [])
  {}

  /** One more step of a run. */
  lemma Reach(start: Sys, es: seq<Event>, s: Sys, e: Event) returns (es': seq<Event>, t: Sys)
    requires TablesValid(start.bus) && s == Run(start, es)
    ensures TablesValid(s.bus) && es' == es + [e] && t == Step(s, e) == Run(start, es') && TablesValid(t.bus)
  {
    hide Step;
    es', t := es + [e], Step(s, e);
    RunSnoc(start, es, e);
    StepValid(s, e);
  }

  // ---- What a revision stands for ----------------------------------------------------------------

  /** From a moment when approval `id` showed revision `rev` with fingerprint `mark` in its
      incarnation `born`: later it is a newer incarnation, or gone, or shows a higher
      revision, or still that revision and that fingerprint. */
  ghost predicate Since(s: Sys, id: string, born: nat, rev: nat, mark: Print) {
    || Born(s.h, A(id)) > born
    || (Born(s.h, A(id)) == born
        && (id in s.cards.approvals && id in s.cards.prints ==>
              s.cards.approvals[id].revision > rev
                  || (s.cards.approvals[id].revision == rev && s.cards.prints[id] == mark)))
  }

  /** No card function but Request changes an approval's revision or fingerprint, or adds one. */
  ghost predicate OnlyLoses(c: Cards, c': Cards, id: string) {
    id in c'.approvals ==>
      && id in c.approvals && id in c'.prints && id in c.prints
      && c'.approvals[id].revision == c.approvals[id].revision
      && c'.prints[id] == c.prints[id]
  }

  lemma SettleOnlyLoses(b: Bus, c: Cards, key: Option<Key>, n: nat, r: CoreResult, id: string)
    requires Printed(c)
    ensures OnlyLoses(c, SettleKey(b, c, key, n, r).1, id)
  {}

  lemma {:induction false} ReopenOnlyLoses(b: Bus, c: Cards, ids: seq<nat>, keys: map<nat, Option<Key>>, id: string)
    requires Printed(c)
    ensures OnlyLoses(c, Reopen(b, c, ids, keys), id) && Printed(Reopen(b, c, ids, keys))
    decreases |ids|
  {
    if ids != [] {
      var n := ids[0];
      var c1 := if n in keys && Owns(b, keys[n], n) then SetResolving(c, keys[n].value, false) else c;
      ReopenOnlyLoses(b, c1, ids[1..], keys, id);
    }
  }

  lemma CommandOnlyLoses(s: Sys, e: Event, id: string)
    requires TablesValid(s.bus) && Printed(s.cards)
    requires e.ResultLine? || e.Resumes?
    ensures OnlyLoses(s.cards, Step(s, e).cards, id)
  {
    if e.Resumes? {
      if e.id in s.bus.answered.at {
        SettleOnlyLoses(s.bus.(answered := s.bus.answered.Remove(e.id)), s.cards, s.bus.answered.at[e.id].key, e.id,
                        s.bus.answered.at[e.id].result, id);
      }
    } else if WaiterOf(s.bus, e.rid).None? && e.rid.Web? {
      var n := e.rid.n;
      if n in s.bus.unknown.at {
        SettleOnlyLoses(s.bus.(unknown := s.bus.unknown.Remove(n)), s.cards, s.bus.unknown.at[n], n, e.result, id);
      } else if n in s.bus.expired.at {
        SettleOnlyLoses(s.bus.(expired := s.bus.expired.Remove(n)), s.cards, s.bus.expired.at[n], n, e.result, id);
      }
    }
  }

  lemma PostOnlyLoses(s: Sys, e: Event, id: string)
    requires TablesValid(s.bus) && Printed(s.cards) && e.Post?
    ensures OnlyLoses(s.cards, Step(s, e).cards, id)
  {}

  lemma TimerOnlyLoses(s: Sys, e: Event, id: string)
    requires TablesValid(s.bus) && Printed(s.cards) && (e.TimeoutFires? || e.UnknownFires?)
    ensures OnlyLoses(s.cards, Step(s, e).cards, id)
  {
    hide Tombstone, RememberUnknown;
  }

  lemma OtherOnlyLoses(s: Sys, e: Event, id: string)
    requires TablesValid(s.bus) && Printed(s.cards)
    requires e.QuestionAsked? || e.ApprovalGone? || e.SessionStarts? || e.SessionEnds?
    ensures OnlyLoses(s.cards, Step(s, e).cards, id)
  {}

  lemma OnlyLosesKeepsSince(s: Sys, t: Sys, id: string, born: nat, rev: nat, mark: Print)
    requires Since(s, id, born, rev, mark) && OnlyLoses(s.cards, t.cards, id)
    requires Born(t.h, A(id)) == Born(s.h, A(id))
    ensures Since(t, id, born, rev, mark)
  {}

  lemma RequestKeepsSince(s: Sys, e: Event, id: string, born: nat, rev: nat, mark: Print)
    requires TablesValid(s.bus) && Printed(s.cards) && Since(s, id, born, rev, mark) && e.ApprovalRequested?
    ensures Since(Step(s, e), id, born, rev, mark)
  {}

  lemma SinceStep(s: Sys, e: Event, id: string, born: nat, rev: nat, mark: Print)
    requires Inv(s) && Since(s, id, born, rev, mark)
    ensures Since(Step(s, e), id, born, rev, mark)
  {
    hide Inv, Step, Since, OnlyLoses;
    InvHas(s);
    if !e.ApprovalRequested? { BornOnlyByRequests(s, e, id); }
    match e
    case ApprovalRequested(_, _, _, _) => RequestKeepsSince(s, e, id, born, rev, mark);
    case ResultLine(_, _) => CommandOnlyLoses(s, e, id); OnlyLosesKeepsSince(s, Step(s, e), id, born, rev, mark);
    case Resumes(_) => CommandOnlyLoses(s, e, id); OnlyLosesKeepsSince(s, Step(s, e), id, born, rev, mark);
    case ChildExits => ExitOnlyLoses(s, id); OnlyLosesKeepsSince(s, Step(s, e), id, born, rev, mark);
    case Post(_, _, _) => PostOnlyLoses(s, e, id); OnlyLosesKeepsSince(s, Step(s, e), id, born, rev, mark);
    case TimeoutFires(_) => TimerOnlyLoses(s, e, id); OnlyLosesKeepsSince(s, Step(s, e), id, born, rev, mark);
    case UnknownFires(_) => TimerOnlyLoses(s, e, id); OnlyLosesKeepsSince(s, Step(s, e), id, born, rev, mark);
    case _ => OtherOnlyLoses(s, e, id); OnlyLosesKeepsSince(s, Step(s, e), id, born, rev, mark);
  }

  lemma InvHas(s: Sys)
    requires Inv(s)
    ensures TablesValid(s.bus) && Printed(s.cards)
  {}

  lemma BornOnlyByRequests(s: Sys, e: Event, id: string)
    requires TablesValid(s.bus) && !e.ApprovalRequested?
    ensures Born(Step(s, e).h, A(id)) == Born(s.h, A(id))
  {
    hide SettleKey, Tombstone, RememberUnknown, Reopen;
  }

  lemma ExitOnlyLoses(s: Sys, id: string)
    requires TablesValid(s.bus)
    ensures OnlyLoses(s.cards, Step(s, ChildExits).cards, id)
  {
    hide Reopen;
  }

  lemma {:induction false} SinceRun(s: Sys, es: seq<Event>, id: string, born: nat, rev: nat, mark: Print)
    requires Inv(s) && Since(s, id, born, rev, mark)
    ensures Since(Run(s, es), id, born, rev, mark)
    decreases |es|
  {
    if es != [] {
      StepKeeps(s, es[0]);
      SinceStep(s, es[0], id, born, rev, mark);
      SinceRun(Step(s, es[0]), es[1..], id, born, rev, mark);
    }
  }

  /** The tab saw approval `id` in state `s`. However the session went on, if the BFF now writes
      an answer that names the revision the tab saw, and the approval was not removed and issued
      anew in between, then what is pending is what the tab saw: same fingerprint, hence the same
      tool and arguments up to the order of object keys. */
  lemma AcceptedApprovalMatchesWhatWasSeen(s: Sys, es: seq<Event>, id: string, cmd: Command, seen: Content,
                                           now: Content)
    requires Inv(s) && id in s.cards.approvals
    requires cmd.key == Some(A(id)) && cmd.revision == Some(s.cards.approvals[id].revision)
    requires var t := Run(s, es);
             Judge(t.bus, t.cards, cmd, true, true).Waiting? && Born(t.h, A(id)) == Born(s.h, A(id))
    requires StableJson.Wf(seen) && StableJson.Wf(now)
    ensures var t := Run(s, es);
            id in t.cards.prints && id in s.cards.prints && t.cards.prints[id] == s.cards.prints[id]
    ensures s.cards.prints[id] == StableJson.StableJson(seen)
            && Run(s, es).cards.prints[id] == StableJson.StableJson(now) ==>
              StableJson.Same(seen, now)
  {
    var rev := s.cards.approvals[id].revision;
    SinceRun(s, es, id, Born(s.h, A(id)), rev, s.cards.prints[id]);
    RunKeeps(s, es);
    StableJson.StableJsonIsCanonical(seen, now);
  }

  // ---- Revisions are used again ------------------------------------------------------------------

  lemma MarksDiffer(tool: Print, args: Content)
    requires StableJson.Wf(args)
    ensures StableJson.StableJson(ContentOf(tool + [0], args)) != StableJson.StableJson(ContentOf(tool, args))
  {
    var a, b := ContentOf(tool + [0], args), ContentOf(tool, args);
    StableJson.StableJsonIsCanonical(a, b);
    assert !StableJson.Same(a.items[0], b.items[0]);
  }

  /** Requests after which approval `id`, not pending before, shows the given content at revision rev. */
  lemma {:induction false} ReviseTo(s: Sys, id: string, rev: nat, agent: string, tool: Print, args: Content)
    returns (es: seq<Event>, t: Sys)
    requires TablesValid(s.bus) && id !in s.cards.approvals && !ClosedForAnswers(s.cards)
    requires id != "" && rev >= 1 && StableJson.Wf(args)
    ensures t == Run(s, es) && Shows(s, t, id, rev, StableJson.StableJson(ContentOf(tool, args)), false)
    ensures t.bus == s.bus && Born(t.h, A(id)) == Born(s.h, A(id)) + 1
    decreases rev
  {
    hide Step, StableJson.StableJson;
    var ask := ApprovalRequested(id, agent, tool, args);
    if rev == 1 {
      RunNothing(s);
      es, t := Reach(s, [], s, ask);
      RequestShows(s, ask);
    } else {
      es, t := ReviseTo(s, id, rev - 1, agent, tool + [0], args);
      MarksDiffer(tool, args);
      ChangeShows(t, ask);
      es, t := Reach(s, es, t, ask);
    }
  }

  lemma RunNothing(s: Sys)
    requires TablesValid(s.bus)
    ensures Run(s, []) == s
  {}

  lemma ApproveIsWritten(s: Sys, id: string, rev: nat)
    requires id in s.cards.approvals && s.cards.approvals[id].revision == rev && !s.cards.approvals[id].resolving
    ensures Judge(s.bus, s.cards, Approve(id, rev), true, true).Waiting?
  {}

  /** Every revision of every approval is used again: from any state that takes requests, removing
      the approval and requesting it anew leads to a state in which an answer that names revision rev
      is written to the child for whatever content was requested last, in a later incarnation. */
  lemma EveryRevisionIsReused(s: Sys, id: string, rev: nat, agent: string, tool: Print, args: Content)
    returns (es: seq<Event>)
    requires TablesValid(s.bus) && !ClosedForAnswers(s.cards) && id != "" && rev >= 1 && StableJson.Wf(args)
    ensures var t := Run(s, es);
            && Judge(t.bus, t.cards, Approve(id, rev), true, true).Waiting?
            && id in t.cards.prints && t.cards.prints[id] == StableJson.StableJson(ContentOf(tool, args))
            && Born(t.h, A(id)) == Born(s.h, A(id)) + 1
  {
    hide Step;
    var s1 := Step(s, ApprovalGone(id));
    GoneShows(s, id);
    var more, t := ReviseTo(s1, id, rev, agent, tool, args);
    es := [ApprovalGone(id)] + more;
    RunCons(s, ApprovalGone(id), more);
    ApproveIsWritten(t, id, rev);
  }

  // ---- Cards of a closed session -----------------------------------------------------------------

  /** Nothing is pending and nothing will be: the child has exited. */
  ghost predicate Exited(c: Cards) {
    c.exited && forall k :: !Pending(c, k)
  }

  lemma ReleaseNothing(c: Cards, k: Key, resolving: bool)
    requires Exited(c)
    ensures SetResolving(c, k, resolving) == c && Exited(Release(c, k))
  {
    assert !Pending(c, k);
    forall x | Pending(Release(c, k), x) ensures Pending(c, x) {}
  }

  lemma SettleStaysExited(b: Bus, c: Cards, key: Option<Key>, n: nat, r: CoreResult)
    requires Exited(c)
    ensures Exited(SettleKey(b, c, key, n, r).1)
  {
    if key.Some? { ReleaseNothing(c, key.value, false); }
  }

  lemma CommandStaysExited(s: Sys, e: Event)
    requires TablesValid(s.bus) && Exited(s.cards) && (e.ResultLine? || e.Resumes?)
    ensures Exited(Step(s, e).cards)
  {
    hide SettleKey, Exited;
    match e
    case Resumes(n) =>
      if n in s.bus.answered.at {
        var a := s.bus.answered.at[n];
        SettleStaysExited(s.bus.(answered := s.bus.answered.Remove(n)), s.cards, a.key, n, a.result);
      }
    case ResultLine(rid, r) =>
      if WaiterOf(s.bus, rid).None? && rid.Web? {
        var n := rid.n;
        if n in s.bus.unknown.at {
          SettleStaysExited(s.bus.(unknown := s.bus.unknown.Remove(n)), s.cards, s.bus.unknown.at[n], n, r);
        } else if n in s.bus.expired.at {
          SettleStaysExited(s.bus.(expired := s.bus.expired.Remove(n)), s.cards, s.bus.expired.at[n], n, r);
        }
      }
  }

  lemma PostStaysExited(s: Sys, e: Event)
    requires TablesValid(s.bus) && Exited(s.cards) && e.Post?
    ensures Exited(Step(s, e).cards)
  {}

  lemma OtherStaysExited(s: Sys, e: Event)
    requires TablesValid(s.bus) && Exited(s.cards) && !e.Post? && !e.ResultLine? && !e.Resumes?
    ensures Exited(Step(s, e).cards)
  {
    hide Reopen, Tombstone, RememberUnknown;
    match e
    case ChildExits => ChildExitIsExit(s);
    case ApprovalGone(id) => ReleaseNothing(s.cards, A(id), false);
    case UnknownFires(n) =>
      if n in s.bus.unknown.at && s.bus.unknown.at[n].Some? {
        ReleaseNothing(s.cards, s.bus.unknown.at[n].value, false);
      }
    case SessionStarts => NothingPending(s.cards, SessionStarted(s.cards));
    case SessionEnds => NothingPending(s.cards, SessionEnded(s.cards));
    case _ =>
  }

  lemma NothingPending(c: Cards, c': Cards)
    requires Exited(c) && c'.exited
    requires c'.approvals.Keys <= c.approvals.Keys && c'.questions.Keys <= c.questions.Keys
    ensures Exited(c')
  {
    forall k | Pending(c', k) ensures Pending(c, k) {}
  }

  /** Once the child has exited, no run ever shows a card again, whatever is asked or requested and
      even if a session starts, and every answer to a card is refused as not pending. */
  lemma {:induction false} ExitIsFinal(s: Sys, es: seq<Event>, cmd: Command)
    requires TablesValid(s.bus) && Exited(s.cards)
    ensures Exited(Run(s, es).cards)
    ensures cmd.admitted && WellFormed(cmd) && cmd.key.Some? ==>
              Judge(Run(s, es).bus, Run(s, es).cards, cmd, true, true) == Refused(NotPending)
    decreases |es|
  {
    hide Step;
    if es != [] {
      var e := es[0];
      if e.Post? { PostStaysExited(s, e); }
      else if e.ResultLine? || e.Resumes? { CommandStaysExited(s, e); }
      else { OtherStaysExited(s, e); }
      StepValid(s, e);
      ExitIsFinal(Step(s, e), es[1..], cmd);
    }
  }

  lemma ChildExitIsExit(s: Sys)
    requires TablesValid(s.bus)
    ensures Exited(Step(s, ChildExits).cards)
  {
    hide Reopen;
  }
}
