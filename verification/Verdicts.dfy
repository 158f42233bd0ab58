/** What a result does to the card of its command, told by the result's own fields
    (fronts/web/src/bff/cmd.ts:45-57, 136-218, 296-371). */
module Verdicts {
  import opened Tables
  import opened Cards
  import opened Commands
  import StableJson
  import P = BusProtocol

  // ---- Results ------------------------------------------------------------------------------------

  /** The child accepted the command: no flag is false, and there is no error. */
  ghost predicate Accepts(r: CoreResult) {
    && r.ok != Bool(false) && r.queued != Bool(false) && r.skipped != Bool(false)
    && (r.error == Absent || r.error == Null)
  }

  /** The error text, or the reason where there is no error text, says that nothing is pending. */
  ghost predicate SaysGone(r: CoreResult) {
    r.error == Text("no pending question") || (!r.error.Text? && r.reason == Text("no pending question"))
  }

  /** What a reply names as the failure: the error text, else the reason text, else "rejected" for a
      command that was refused without either. */
  lemma FailureLaw(r: CoreResult)
    ensures Failure(r) == if r.error.Text? then Some(r.error.s)
                          else if r.reason.Text? then Some(r.reason.s)
                          else if !Accepts(r) then Some("rejected")
                          else None
  {}

  // ---- Cards --------------------------------------------------------------------------------------

  ghost predicate OnlyCard(c: Cards, c': Cards, k: Key) {
    && c'.ended == c.ended && c'.exited == c.exited
    && (forall id :: A(id) != k ==>
          && (id in c'.approvals <==> id in c.approvals) && (id in c'.prints <==> id in c.prints)
          && (id in c.approvals ==> c'.approvals[id] == c.approvals[id])
          && (id in c.prints ==> c'.prints[id] == c.prints[id]))
    && (forall id :: Q(id) != k ==>
          && (id in c'.questions <==> id in c.questions)
          && (id in c.questions ==> c'.questions[id] == c.questions[id]))
  }

  /** The card is answerable again and says what it said. */
  ghost predicate Reopened(c: Cards, c': Cards, k: Key) {
    match k
    case A(id) =>
      && id in c.approvals && id in c'.approvals && c'.prints == c.prints
      && c'.approvals[id] == Approval(c.approvals[id].agent, c.approvals[id].tool, c.approvals[id].revision, false)
    case Q(id) => id in c.questions && id in c'.questions && c'.questions[id] == Question(c.questions[id].text, false)
  }

  /** The card is gone, with the fingerprint of an approval. */
  ghost predicate Vanished(c': Cards, k: Key) {
    match k
    case A(id) => id !in c'.approvals && id !in c'.prints
    case Q(id) => id !in c'.questions
  }

  /** A verdict for the card of key k: an accepted answer and "no pending question" drop it, any
      other refusal makes it answerable again. */
  ghost predicate Ruled(c: Cards, c': Cards, k: Key, r: CoreResult) {
    && OnlyCard(c, c', k)
    && (Accepts(r) || SaysGone(r) ==> Vanished(c', k))
    && (!Accepts(r) && !SaysGone(r) ==> if Pending(c, k) then Reopened(c, c', k) else c' == c)
  }

  /** The owner of a key gives it up with its verdict; no other key changes hands. */
  ghost predicate GivesUp(owner: map<Key, nat>, owner': map<Key, nat>, k: Key) {
    owner'.Keys == owner.Keys - {k} && forall x :: x in owner' ==> owner'[x] == owner[x]
  }

  lemma SettleRules(b: Bus, c: Cards, k: Key, id: nat, r: CoreResult)
    requires k in b.owner && b.owner[k] == id
    ensures var (b', c', mine) := SettleKey(b, c, Some(k), id, r);
            mine && Ruled(c, c', k, r) && GivesUp(b.owner, b'.owner, k)
  {
    hide OnlyCard, Vanished, Reopened, Accepts, SaysGone, Drops, Release, SetResolving;
    DropsIff(r);
    Released(c, k);
    MadeAnswerable(c, k);
  }

  lemma DropsIff(r: CoreResult)
    ensures Drops(r) <==> Accepts(r) || SaysGone(r)
  {}

  lemma Released(c: Cards, k: Key)
    ensures OnlyCard(c, Release(c, k), k) && Vanished(Release(c, k), k)
  {}

  lemma MadeAnswerable(c: Cards, k: Key)
    ensures var c' := SetResolving(c, k, false);
            OnlyCard(c, c', k) && if Pending(c, k) then Reopened(c, c', k) else c' == c
  {}

  /** In time: when the handler of an answered command resumes. */
  lemma ResumeRules(s: P.Sys, id: nat, k: Key)
    requires TablesValid(s.bus) && id in s.bus.answered.at && s.bus.answered.at[id].key == Some(k)
    requires k in s.bus.owner && s.bus.owner[k] == id
    ensures var t := P.Step(s, P.Resumes(id));
            Ruled(s.cards, t.cards, k, s.bus.answered.at[id].result) && GivesUp(s.bus.owner, t.bus.owner, k)
  {
    hide SettleKey;
    SettleRules(s.bus.(answered := s.bus.answered.Remove(id)), s.cards, k, id, s.bus.answered.at[id].result);
  }

  /** Late: after the request has timed out, given up or not. */
  lemma LateResultRules(s: P.Sys, id: nat, k: Key, r: CoreResult)
    requires TablesValid(s.bus) && id !in s.bus.inflight.at
    requires if id in s.bus.unknown.at then s.bus.unknown.at[id] == Some(k)
             else id in s.bus.expired.at && s.bus.expired.at[id] == Some(k)
    requires k in s.bus.owner && s.bus.owner[k] == id
    ensures var t := P.Step(s, P.ResultLine(Web(id), r));
            Ruled(s.cards, t.cards, k, r) && GivesUp(s.bus.owner, t.bus.owner, k)
  {
    hide SettleKey;
    if id in s.bus.unknown.at {
      SettleRules(s.bus.(unknown := s.bus.unknown.Remove(id)), s.cards, k, id, r);
    } else {
      SettleRules(s.bus.(expired := s.bus.expired.Remove(id)), s.cards, k, id, r);
    }
  }

  /** The result that is kept for the handler is the one of the line, under the waiting command's key. */
  lemma ResultWaits(s: P.Sys, id: nat, r: CoreResult)
    requires TablesValid(s.bus) && id in s.bus.inflight.at
    ensures var t := P.Step(s, P.ResultLine(Web(id), r));
            && id !in t.bus.inflight.at && id in t.bus.answered.at
            && t.bus.answered.at[id] == Answer(s.bus.inflight.at[id], r) && t.cards == s.cards
  {}

  // ---- What a line reports ----------------------------------------------------------------------------

  /** A late line reports whether the command failed, and whether a newer one has taken its key; it
      is a warning unless it is a success within the unknown time for a key still its own. */
  lemma LateReport(b: Bus, c: Cards, id: nat, r: CoreResult)
    requires TablesValid(b) && id !in b.inflight.at && (id in b.unknown.at || id in b.expired.at)
    ensures var key := if id in b.unknown.at then b.unknown.at[id] else b.expired.at[id];
            var superseded := key.Some? && !(key.value in b.owner && b.owner[key.value] == id);
            OnResult(b, c, Web(id), r).2
            == LateResult(id, !Accepts(r), !Accepts(r) || superseded || id !in b.unknown.at, superseded)
  {}

  /** A line whose id nobody knows changes nothing and is reported, unless it answers the shutdown. */
  lemma StrayLine(b: Bus, c: Cards, rid: ResultId, r: CoreResult)
    requires TablesValid(b)
    requires match rid
             case Web(n) => n !in b.inflight.at && n !in b.unknown.at && n !in b.expired.at
             case Undecoded => |b.inflight.order| != 1
             case _ => true
    ensures OnResult(b, c, rid, r) == (b, c, if rid == Shutdown then Silent else Orphan)
  {}

  // ---- What is sent ------------------------------------------------------------------------------------

  /** A command that answers a card names it, by the kind of card; any other names none. */
  ghost predicate NamesItsCard(cmd: Command) {
    match cmd.answers
    case Nothing => cmd.key == None
    case AQuestion => exists id :: cmd.key == Some(Q(id))
    case AnApproval => cmd.revision != None && exists id :: cmd.key == Some(A(id))
  }

  /** The card can be answered now: it is pending, at the revision that was seen, and nobody is
      answering it. */
  ghost predicate Answerable(c: Cards, k: Key, revision: Option<int>) {
    match k
    case Q(id) => id in c.questions && !c.questions[id].resolving
    case A(id) =>
      && id in c.approvals && !c.approvals[id].resolving
      && (revision == None || revision == Some(c.approvals[id].revision))
  }

  lemma FitsIff(cmd: Command)
    ensures WellFormed(cmd) <==> cmd.schemaOk && NamesItsCard(cmd)
  {
    if cmd.key.Some? { assert cmd.key == Some(A(cmd.key.value.id)) || cmd.key == Some(Q(cmd.key.value.id)); }
  }

  lemma ChecksIff(c: Cards, k: Key, revision: Option<int>)
    ensures Check(c, k, revision) == None <==> Answerable(c, k, revision)
  {}

  /** A POST writes a command to the child exactly when its tab may send it, it is well formed, its
      card can be answered, and the child takes it. It then has the next id, and its card waits for
      it; otherwise no command and no card changes. */
  lemma SentIff(s: P.Sys, cmd: Command, alive: bool, accepted: bool)
    requires TablesValid(s.bus)
    ensures var t, id := P.Step(s, P.Post(cmd, alive, accepted)), s.bus.next;
            var sent := && cmd.admitted && cmd.schemaOk && NamesItsCard(cmd) && alive && accepted
                        && (cmd.key.Some? ==> Answerable(s.cards, cmd.key.value, cmd.revision));
            && t.bus.next == id + (if cmd.admitted then 1 else 0)
            && (!sent ==> t.cards == s.cards && t.bus == s.bus.(next := t.bus.next) && t.h == s.h)
            && (sent ==>
                  && t.bus.inflight == s.bus.inflight.Put(id, cmd.key)
                  && t.h.sent == s.h.sent + [id]
                  && t.bus.owner == (if cmd.key.Some? then s.bus.owner[cmd.key.value := id] else s.bus.owner)
                  && (cmd.key.Some? ==> OnlyCard(s.cards, t.cards, cmd.key.value) && Resolving(t.cards, cmd.key.value)))
  {
    FitsIff(cmd);
    if cmd.key.Some? { ChecksIff(s.cards, cmd.key.value, cmd.revision); }
    hide WellFormed, Check;
    if cmd.key.Some? && cmd.admitted && alive && accepted && WellFormed(cmd) { AnsweringOnly(s.cards, cmd.key.value); }
  }

  lemma AnsweringOnly(c: Cards, k: Key)
    ensures OnlyCard(c, SetResolving(c, k, true), k) && (Pending(c, k) ==> Resolving(SetResolving(c, k, true), k))
  {}

  /** Why a well-formed answer is refused: nothing is pending under its id, or else another revision
      is, or else it is being answered already. */
  lemma RefusedBecause(b: Bus, c: Cards, cmd: Command, alive: bool, accepted: bool)
    requires cmd.admitted && cmd.schemaOk && NamesItsCard(cmd) && cmd.key.Some?
    ensures var k, out := cmd.key.value, Judge(b, c, cmd, alive, accepted);
            && (out == Refused(NotPending) <==> !Pending(c, k))
            && (out == Refused(StaleRevision) <==>
                  Pending(c, k) && k.A? && cmd.revision != None && cmd.revision != Some(c.approvals[k.id].revision))
            && (out == Refused(InFlight) <==> !out.Waiting? && out != Unavailable
                                              && out != Refused(NotPending) && out != Refused(StaleRevision))
            && (out == Refused(InFlight) ==> Resolving(c, k))
            && (out == Unavailable <==> Answerable(c, k, cmd.revision) && !(alive && accepted))
  {
    FitsIff(cmd);
  }

  // ---- Questions and requests -----------------------------------------------------------------------------

  /** A question shows its text, and a repeated one keeps whether it is being answered. */
  lemma AskLaw(c: Cards, id: string, text: string)
    ensures var c' := Ask(c, id, text);
            if c.ended || c.exited || id == "" then c' == c
            else
              && OnlyCard(c, c', Q(id)) && id in c'.questions && c'.questions[id].text == text
              && (c'.questions[id].resolving <==> id in c.questions && c.questions[id].resolving)
  {}

  /** A request shows who asks for which tool. Its revision counts the changes of tool and arguments
      since it became pending, and it keeps whether it is being answered. */
  lemma RequestLaw(c: Cards, id: string, agent: string, tool: Print, args: Content)
    requires Printed(c)
    ensures var c' := Request(c, id, agent, tool, args);
            var mark := StableJson.StableJson(StableJson.Arr([StableJson.Text(tool), args]));
            if c.ended || c.exited || id == "" then c' == c
            else
              && OnlyCard(c, c', A(id)) && id in c'.approvals && id in c'.prints && c'.prints[id] == mark
              && c'.approvals[id].agent == agent && c'.approvals[id].tool == tool
              && (c'.approvals[id].resolving <==> id in c.approvals && c.approvals[id].resolving)
              && c'.approvals[id].revision == (if id !in c.approvals then 1
                                               else if c.prints[id] == mark then c.approvals[id].revision
                                               else c.approvals[id].revision + 1)
  {}

  // ---- Tables -----------------------------------------------------------------------------------------------

  /** A new tombstone goes last. Over the bound the oldest goes, with the key it owns, if any. */
  lemma TombstoneLaw(b: Bus, id: nat, key: Option<Key>, maxUnknown: nat)
    requires b.expired.Valid() && id !in b.expired.at
    ensures var t := Tombstone(b, id, key, maxUnknown);
            && t.(expired := b.expired, owner := b.owner) == b
            && if |b.expired.order| < maxUnknown then
                 t.owner == b.owner && t.expired == Table(b.expired.order + [id], b.expired.at[id := key])
               else
                 var oldest := if b.expired.order == [] then id else b.expired.order[0];
                 var oldKey := if b.expired.order == [] then key else b.expired.at[oldest];
                 && t.expired.at == b.expired.at[id := key] - {oldest}
                 && t.expired.order == (b.expired.order + [id])[1..]
                 && t.owner == (if oldKey.Some? && oldKey.value in b.owner && b.owner[oldKey.value] == oldest
                                then b.owner - {oldKey.value} else b.owner)
  {
    b.expired.PutValid(id, key);
    DropFirst(b.expired.order + [id]);
  }

  lemma DropFirst(s: seq<nat>)
    requires Distinct(s) && s != []
    ensures Without(s, s[0]) == s[1..]
  {
    assert s[0] !in s[1..];
    Untouched(s[1..], s[0]);
  }

  lemma {:induction false} Untouched(s: seq<nat>, x: nat)
    requires x !in s
    ensures Without(s, x) == s
  {
    if s != [] { Untouched(s[1..], x); }
  }

  /** The command that makes room is the first unknown one that answers no card. */
  lemma {:induction false} FirstKeylessLaw(order: seq<nat>, at: map<nat, Option<Key>>)
    requires forall id :: id in order ==> id in at
    ensures var r := FirstKeyless(order, at);
            && (r == None <==> forall i :: 0 <= i < |order| ==> at[order[i]] != None)
            && (r != None ==> exists i :: && 0 <= i < |order| && order[i] == r.value && at[r.value] == None
                                          && forall j :: 0 <= j < i ==> at[order[j]] != None)
  {
    if order != [] && at[order[0]] != None {
      FirstKeylessLaw(order[1..], at);
      assert forall i :: 0 < i < |order| ==> order[i] == order[1..][i - 1];
      var r := FirstKeyless(order[1..], at);
      if r != None {
        var i :| && 0 <= i < |order[1..]| && order[1..][i] == r.value && at[r.value] == None
                 && forall j :: 0 <= j < i ==> at[order[1..][j]] != None;
        assert order[i + 1] == r.value;
        forall j | 0 <= j < i + 1 ensures at[order[j]] != None { if j > 0 { assert order[j] == order[1..][j - 1]; } }
      }
    }
  }

  /** A timed-out command becomes unknown under its key. Only when the table is full does a command
      leave it, one that answers no card, for a tombstone. */
  lemma TimeoutLaw(b: Bus, id: nat, maxUnknown: nat)
    requires TablesValid(b) && P.IdsDisjoint(b) && id in b.inflight.at
    ensures var t, victim := TimedOut(b, id, maxUnknown), FirstKeyless(b.unknown.order, b.unknown.at);
            && t.next == b.next && t.answered == b.answered && t.inflight == b.inflight.Remove(id)
            && if |b.unknown.order| < maxUnknown || victim == None then
                 t.unknown == b.unknown.Put(id, b.inflight.at[id]) && t.expired == b.expired && t.owner == b.owner
               else
                 var t' := Tombstone(b.(unknown := b.unknown.Remove(victim.value)), victim.value, None, maxUnknown);
                 t.unknown == b.unknown.Remove(victim.value).Put(id, b.inflight.at[id])
                 && t.expired == t'.expired && t.owner == t'.owner
  {
    hide Tombstone, FirstKeyless, TablesValid, P.IdsDisjoint;
    var b1 := b.(inflight := b.inflight.Remove(id));
    var victim := FirstKeyless(b.unknown.order, b.unknown.at);
    Timing(b, id);
    if |b.unknown.order| >= maxUnknown && victim != None {
      TombstoneAside(b.(unknown := b.unknown.Remove(victim.value)), b1.(unknown := b.unknown.Remove(victim.value)),
                     victim.value, maxUnknown);
    }
  }

  lemma Timing(b: Bus, id: nat)
    requires TablesValid(b)
    ensures b.expired.Valid()
  {}

  /** A keyless tombstone is buried alike whoever still waits. */
  lemma TombstoneAside(b: Bus, b1: Bus, id: nat, maxUnknown: nat)
    requires b.expired.Valid() && b1 == b.(inflight := b1.inflight)
    ensures var t, t1 := Tombstone(b, id, None, maxUnknown), Tombstone(b1, id, None, maxUnknown);
            && t1.expired == t.expired && t1.owner == t.owner
            && t1.unknown == b.unknown && t1.inflight == b1.inflight && t1.answered == b.answered && t1.next == b.next
  {}

  /** When the child exits, nothing is waited for any more and nothing is owned. */
  lemma ExitLaw(b: Bus, c: Cards)
    ensures var (b', c') := ChildExit(b, c);
            b' == Bus(b.next, Table([], map[]), b.answered, Table([], map[]), Table([], map[]), map[])
  {}

  /** Reopening makes answerable exactly the cards whose owner is among the ids, and changes no other. */
  lemma {:induction false} ReopenLaw(b: Bus, c: Cards, ids: seq<nat>, keys: map<nat, Option<Key>>, k: Key)
    ensures var c' := Reopen(b, c, ids, keys);
            && (Pending(c', k) <==> Pending(c, k))
            && (Resolving(c', k) <==>
                  && Resolving(c, k)
                  && !(k in b.owner && b.owner[k] in ids && b.owner[k] in keys && keys[b.owner[k]] == Some(k)))
    decreases |ids|
  {
    if ids != [] {
      var id := ids[0];
      var mine := id in keys && Owns(b, keys[id], id);
      if mine { P.SetResolvingOnly(c, keys[id].value, false); }
      ReopenLaw(b, if mine then SetResolving(c, keys[id].value, false) else c, ids[1..], keys, k);
      assert ids == [id] + ids[1..];
    }
  }

  /** ... and the cards that one of the commands waiting or unknown owned are answerable again. */
  lemma ExitCardsLaw(b: Bus, c: Cards, k: Key)
    requires b.inflight.Valid() && b.unknown.Valid() && b.inflight.at.Keys !! b.unknown.at.Keys
    ensures var c', lost := ChildExit(b, c).1, b.inflight.at + b.unknown.at;
            && (Pending(c', k) <==> Pending(c, k))
            && (Resolving(c', k) <==>
                  Resolving(c, k) && !(k in b.owner && b.owner[k] in lost && lost[b.owner[k]] == Some(k)))
  {
    ReopenLaw(b, c, b.inflight.order, b.inflight.at, k);
    ReopenLaw(b, Reopen(b, c, b.inflight.order, b.inflight.at), b.unknown.order, b.unknown.at, k);
  }
}
