/** The pending questions and approvals of the Web BFF
    (fronts/web/src/bff/state.ts): values, the functions every update is
    specified by, and the class that updates them in place. */
module Cards {
  import opened Tables
  import StableJson

  type Content = StableJson.Json
  type Print = StableJson.Str

  /** Pending key: `q:<question_id>` or `a:<approval_id>`. */
  datatype Key = Q(id: string) | A(id: string)

  datatype Approval = Approval(agent: string, tool: Print, revision: nat, resolving: bool)
  datatype Question = Question(text: string, resolving: bool)

  datatype Cards = Cards(
    approvals: map<string, Approval>,
    prints: map<string, Print>,
    questions: map<string, Question>,
    ended: bool,
    exited: bool)

  datatype Problem = NotPending | StaleRevision | InFlight

  const NO_CARDS := Cards(map[], map[], map[], false, false)

  predicate Pending(c: Cards, k: Key) {
    match k
    case A(id) => id in c.approvals
    case Q(id) => id in c.questions
  }

  predicate Resolving(c: Cards, k: Key) {
    match k
    case A(id) => id in c.approvals && c.approvals[id].resolving
    case Q(id) => id in c.questions && c.questions[id].resolving
  }

  /** Only approvals have a revision to be stale. */
  function Check(c: Cards, k: Key, revision: Option<int>): Option<Problem> {
    if !Pending(c, k) then Some(NotPending)
    else if k.A? && revision.Some? && c.approvals[k.id].revision != revision.value then Some(StaleRevision)
    else if Resolving(c, k) then Some(InFlight)
    else None
  }

  function SetResolving(c: Cards, k: Key, resolving: bool): Cards {
    if !Pending(c, k) then c
    else match k
      case A(id) => c.(approvals := c.approvals[id := c.approvals[id].(resolving := resolving)])
      case Q(id) => c.(questions := c.questions[id := c.questions[id].(resolving := resolving)])
  }

  function Release(c: Cards, k: Key): Cards {
    match k
    case A(id) => c.(approvals := c.approvals - {id}, prints := c.prints - {id})
    case Q(id) => c.(questions := c.questions - {id})
  }

  function Cleared(c: Cards): Cards {
    c.(approvals := map[], prints := map[], questions := map[])
  }

  predicate ClosedForAnswers(c: Cards) {
    c.ended || c.exited
  }

  function Ask(c: Cards, id: string, text: string): Cards {
    if ClosedForAnswers(c) || id == "" then c
    else c.(questions := c.questions[id := Question(text, Resolving(c, Q(id)))])
  }

  /** What the fingerprint covers: the tool name and the unclipped arguments. */
  function ContentOf(tool: Print, args: Content): Content {
    StableJson.Arr([StableJson.Text(tool), args])
  }

  function Request(c: Cards, id: string, agent: string, tool: Print, args: Content): Cards {
    if ClosedForAnswers(c) || id == "" then c
    else
      var mark := StableJson.StableJson(ContentOf(tool, args));
      var changed := id in c.prints && id in c.approvals && c.prints[id] != mark;
      var revision := if id !in c.approvals then 1 else c.approvals[id].revision + (if changed then 1 else 0);
      c.(prints := c.prints[id := mark],
         approvals := c.approvals[id := Approval(agent, tool, revision, Resolving(c, A(id)))])
  }

  /** approval.resolved, approval.granted, approval.expired and tool.denied. */
  function Gone(c: Cards, id: string): Cards {
    Release(c, A(id))
  }

  function SessionStarted(c: Cards): Cards { c.(ended := false) }
  function SessionEnded(c: Cards): Cards { Cleared(c).(ended := true) }
  function GatewayExited(c: Cards): Cards { Cleared(c).(exited := true) }

  /** Every approval has its fingerprint and no fingerprint outlives its approval. */
  ghost predicate Printed(c: Cards) {
    c.prints.Keys == c.approvals.Keys
  }

  class BffState {
    var approvals: map<string, Approval>
    var prints: map<string, Print>
    var questions: map<string, Question>
    var ended: bool
    var exited: bool

    function View(): Cards
      reads this
    {
      Cards(approvals, prints, questions, ended, exited)
    }

    constructor ()
      ensures View() == NO_CARDS
    {
      approvals, prints, questions, ended, exited := map[], map[], map[], false, false;
    }

    method IsProblem(key: Key, revision: Option<int>) returns (problem: Option<Problem>)
      ensures problem == Check(View(), key, revision)
    {
      match key {
        case A(id) =>
          if id !in approvals { return Some(NotPending); }
          if revision.Some? && approvals[id].revision != revision.value { return Some(StaleRevision); }
          problem := if approvals[id].resolving then Some(InFlight) else None;
        case Q(id) =>
          if id !in questions { return Some(NotPending); }
          problem := if questions[id].resolving then Some(InFlight) else None;
      }
    }

    method MarkResolving(key: Key, resolving: bool)
      modifies this
      ensures View() == SetResolving(old(View()), key, resolving)
    {
      match key {
        case A(id) =>
          if id in approvals && approvals[id].resolving != resolving {
            approvals := approvals[id := approvals[id].(resolving := resolving)];
          }
        case Q(id) =>
          if id in questions && questions[id].resolving != resolving {
            questions := questions[id := questions[id].(resolving := resolving)];
          }
      }
      assert View().approvals == SetResolving(old(View()), key, resolving).approvals;
      assert View().questions == SetResolving(old(View()), key, resolving).questions;
    }

    method Drop(key: Key)
      modifies this
      ensures View() == Release(old(View()), key)
    {
      match key {
        case A(id) =>
          prints := prints - {id};
          approvals := approvals - {id};
        case Q(id) =>
          questions := questions - {id};
      }
    }

    method OnQuestion(id: string, text: string)
      modifies this
      ensures View() == Ask(old(View()), id, text)
      ensures forall k :: Pending(View(), k) <==>
                Pending(old(View()), k) || (k == Q(id) && id != "" && !ClosedForAnswers(old(View())))
      ensures forall k :: Resolving(View(), k) == Resolving(old(View()), k)
    {
      if ended || exited || id == "" { return; }
      var was := id in questions && questions[id].resolving;
      questions := questions[id := Question(text, was)];
    }

    method OnRequest(id: string, agent: string, tool: Print, args: Content)
      requires Printed(View())
      modifies this
      ensures View() == Request(old(View()), id, agent, tool, args)
      ensures Printed(View())
    {
      if ended || exited || id == "" { return; }
      var mark := StableJson.StableJson(ContentOf(tool, args));
      var revision, was := 1, false;
      if id in approvals {
        var item := approvals[id];
        revision, was := item.revision, item.resolving;
        if prints[id] != mark { revision := revision + 1; }
      }
      prints := prints[id := mark];
      approvals := approvals[id := Approval(agent, tool, revision, was)];
    }

    /** The card is no longer pending, nor is its revision remembered: if it is requested again it
        starts at revision 1, answerable. */
    method OnGone(id: string)
      modifies this
      ensures View() == Gone(old(View()), id)
      ensures Printed(old(View())) ==> Printed(View())
      ensures forall k :: Pending(View(), k) <==> Pending(old(View()), k) && k != A(id)
      ensures forall k :: Resolving(View(), k) <==> Resolving(old(View()), k) && k != A(id)
      ensures forall rev :: Check(View(), A(id), rev) == Some(NotPending)
      ensures id != "" && !ClosedForAnswers(View()) ==>
                forall agent, tool, args :: Check(Request(View(), id, agent, tool, args), A(id), Some(1)) == None
    {
      approvals := approvals - {id};
      prints := prints - {id};
    }

    /** Cards are taken again, unless the child has exited; those that are pending stay as they are. */
    method OnSessionStarted()
      modifies this
      ensures View() == SessionStarted(old(View()))
      ensures ClosedForAnswers(View()) <==> old(exited)
      ensures forall k, rev :: Check(View(), k, rev) == Check(old(View()), k, rev)
    {
      ended := false;
    }

    /** Every answer is refused, and no card is taken until a session starts. */
    method OnSessionEnded()
      modifies this
      ensures View() == SessionEnded(old(View())) && Printed(View())
      ensures forall k, rev :: Check(View(), k, rev) == Some(NotPending)
      ensures forall id, text :: Ask(View(), id, text) == View()
      ensures forall id, agent, tool, args :: Request(View(), id, agent, tool, args) == View()
    {
      ended := true;
      approvals, prints, questions := map[], map[], map[];
    }

    /** Every answer is refused, and no card is taken any more, even if a session starts. */
    method OnGatewayExited()
      modifies this
      ensures View() == GatewayExited(old(View())) && Printed(View())
      ensures forall k, rev :: Check(View(), k, rev) == Some(NotPending)
      ensures forall id, text :: Ask(SessionStarted(View()), id, text) == SessionStarted(View())
      ensures forall id, agent, tool, args ::
                Request(SessionStarted(View()), id, agent, tool, args) == SessionStarted(View())
    {
      exited := true;
      approvals, prints, questions := map[], map[], map[];
    }
  }
}
